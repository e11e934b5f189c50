/** Where `;` is a statement of its own, the guard the printer puts before a `(` reads back as an
    empty statement. `Settle` is the tree with those statements written out: it prints the same. */
module Settled {
  import opened Wrappers
  import opened LuaSyntax
  import opened Emission
  import opened Grammar
  import opened CanonicalForm

  function SettleExpr(e: Expr): Expr
    decreases e
  {
    match e
    case FunctionDef(body) => FunctionDef(SettleBody(body))
    case Index(prefix, index) => Index(SettleExpr(prefix), SettleExpr(index))
    case FieldAccess(prefix, name) => FieldAccess(SettleExpr(prefix), name)
    case Call(callee, selector, args) => Call(SettleExpr(callee), selector, SettleArgs(args))
    case Paren(inner) => Paren(SettleExpr(inner))
    case Table(fields) => Table(SettleFields(fields))
    case Binary(left, op, right) => Binary(SettleExpr(left), op, SettleExpr(right))
    case Unary(op, operand) => Unary(op, SettleExpr(operand))
    case IfExpr(condition, thenExpr, arms) => IfExpr(SettleExpr(condition), SettleExpr(thenExpr), SettleArms(arms))
    case Interp(text, holes) => Interp(text, SettleHoles(holes))
    case Cast(expr, annotation) => Cast(SettleExpr(expr), annotation)
    case _ => e
  }

  function SettleExprs(es: Exprs): (r: Exprs)
    ensures r.NoExprs? == es.NoExprs?
    decreases es
  {
    match es
    case NoExprs => NoExprs
    case MoreExprs(head, tail) => MoreExprs(SettleExpr(head), SettleExprs(tail))
  }

  function SettleArgs(args: Args): Args
    decreases args
  {
    match args
    case ParenArgs(exprs) => ParenArgs(SettleExprs(exprs))
    case TableArg(fields) => TableArg(SettleFields(fields))
    case StringArg(text) => args
  }

  function SettleFields(fields: Fields): (r: Fields)
    ensures r.NoFields? == fields.NoFields?
    decreases fields
  {
    match fields
    case NoFields => NoFields
    case MoreFields(head, tail) => MoreFields(SettleField(head), SettleFields(tail))
  }

  function SettleField(f: Field): Field
    decreases f
  {
    match f
    case Bracketed(key, value) => Bracketed(SettleExpr(key), SettleExpr(value))
    case Named(name, value) => Named(name, SettleExpr(value))
    case Positional(value) => Positional(SettleExpr(value))
  }

  function SettleArms(arms: ExprArms): ExprArms
    decreases arms
  {
    match arms
    case ElseExpr(expr) => ElseExpr(SettleExpr(expr))
    case ElseIfExpr(condition, expr, rest) => ElseIfExpr(SettleExpr(condition), SettleExpr(expr), SettleArms(rest))
  }

  function SettleHoles(holes: Holes): Holes
    decreases holes
  {
    match holes
    case LastHole(expr, text) => LastHole(SettleExpr(expr), text)
    case MoreHoles(expr, text, rest) => MoreHoles(SettleExpr(expr), text, SettleHoles(rest))
  }

  function SettleBody(body: Body): Body
    decreases body
  {
    Body(body.params, body.vararg, SettleBlock(body.block))
  }

  function SettleBlock(b: Block): Block
    decreases b
  {
    Block(SettleStmts(b.stmts, true),
          match b.last
          case Return(exprs) => Return(SettleExprs(exprs))
          case _ => b.last)
  }

  function SettleStmts(ss: Stmts, safe: bool): Stmts
    decreases ss
  {
    match ss
    case NoStmts => NoStmts
    case MoreStmts(head, tail) =>
      var rest := MoreStmts(SettleStmt(head), SettleStmts(tail, head.Empty?));
      if NeedsGuard(head, safe) then MoreStmts(Empty, rest) else rest
  }

  function SettleStmt(s: Stmt): (r: Stmt)
    ensures r.Empty? == s.Empty?
    decreases s
  {
    match s
    case Assign(targets, values) => Assign(SettleExprs(targets), SettleExprs(values))
    case CallStmt(call) => CallStmt(SettleExpr(call))
    case Do(block) => Do(SettleBlock(block))
    case While(condition, block) => While(SettleExpr(condition), SettleBlock(block))
    case Repeat(block, condition) => Repeat(SettleBlock(block), SettleExpr(condition))
    case If(condition, block, arms) => If(SettleExpr(condition), SettleBlock(block), SettleStmtArms(arms))
    case NumericFor(name, start, limit, step, block) =>
      NumericFor(name, SettleExpr(start), SettleExpr(limit), SettleStep(step), SettleBlock(block))
    case GenericFor(names, exprs, block) => GenericFor(names, SettleExprs(exprs), SettleBlock(block))
    case FunctionDecl(path, selector, body) => FunctionDecl(path, selector, SettleBody(body))
    case LocalFunction(name, body) => LocalFunction(name, SettleBody(body))
    case Local(bindings, values) => Local(bindings, SettleExprs(values))
    case Compound(target, op, value) => Compound(SettleExpr(target), op, SettleExpr(value))
    case _ => s
  }

  function SettleStep(step: Option<Expr>): Option<Expr>
    decreases step
  {
    match step
    case None => None
    case Some(expr) => Some(SettleExpr(expr))
  }

  function SettleStmtArms(arms: StmtArms): StmtArms
    decreases arms
  {
    match arms
    case EndIf => EndIf
    case Else(block) => Else(SettleBlock(block))
    case ElseIf(condition, block, rest) => ElseIf(SettleExpr(condition), SettleBlock(block), SettleStmtArms(rest))
  }

  // ----- settling keeps the shape -----

  lemma {:induction false} SettleKeepsStart(e: Expr)
    ensures ExprStartsWithParen(SettleExpr(e)) == ExprStartsWithParen(e)
  {
    hide SettleBody, SettleFields, SettleArgs, SettleArms, SettleHoles;
    match e
    case Call(callee, _, _) => SettleKeepsStart(callee);
    case FieldAccess(prefix, _) => SettleKeepsStart(prefix);
    case Index(prefix, _) => SettleKeepsStart(prefix);
    case Binary(left, _, _) => SettleKeepsStart(left);
    case Cast(expr, _) => SettleKeepsStart(expr);
    case _ =>
  }

  lemma SettleKeepsGuard(s: Stmt, safe: bool)
    ensures NeedsGuard(SettleStmt(s), safe) == NeedsGuard(s, safe)
  {
    hide SettleExpr, ExprStartsWithParen, SettleBlock, SettleBody, SettleStmtArms;
    match s
    case Assign(targets, _) =>
      if targets.MoreExprs? {
        SettleKeepsStart(targets.head);
      }
    case CallStmt(call) => SettleKeepsStart(call);
    case Compound(target, _, _) => SettleKeepsStart(target);
    case _ =>
  }

  lemma SettleKeepsKind(e: Expr)
    ensures IsPrefix(SettleExpr(e)) == IsPrefix(e) && SettleExpr(e).IfExpr? == e.IfExpr?
    ensures SettleExpr(e).Binary? == e.Binary? && SettleExpr(e).Unary? == e.Unary? && SettleExpr(e).Cast? == e.Cast?
  {
    hide SettleBody, SettleFields, SettleArgs, SettleHoles, SettleArms;
  }

  lemma KindSeals(v: Version, e: Expr, next: Token)
    requires !e.Binary? && !e.Unary? && !e.Cast? && !e.IfExpr?
    ensures SimpleSealed(v, e, next) == (IsPrefix(e) ==> !StartsSuffix(next))
    ensures Sealed(v, e, next) == (SimpleSealed(v, e, next) && !(v.Luau? && next == Sign(DoubleColon)))
  {
    hide StartsSuffix, IsPrefix, TokenBinds, TypeSealed, ArmsSealed;
  }

  lemma SealByKind(v: Version, e: Expr, f: Expr, next: Token)
    requires !e.Binary? && !e.Unary? && !e.Cast? && !e.IfExpr?
    requires !f.Binary? && !f.Unary? && !f.Cast? && !f.IfExpr? && IsPrefix(e) == IsPrefix(f)
    ensures Sealed(v, e, next) == Sealed(v, f, next) && SimpleSealed(v, e, next) == SimpleSealed(v, f, next)
  {
    hide Sealed, SimpleSealed, StartsSuffix, IsPrefix;
    KindSeals(v, e, next);
    KindSeals(v, f, next);
  }

  lemma {:induction false} SettleKeepsSeal(v: Version, e: Expr, next: Token)
    ensures Sealed(v, SettleExpr(e), next) == Sealed(v, e, next)
    ensures !e.Binary? && !e.Unary? && !e.Cast? ==> SimpleSealed(v, SettleExpr(e), next) == SimpleSealed(v, e, next)
    decreases e
  {
    hide SettleBody, SettleFields, SettleArgs, SettleHoles, SettleArms, TokenBinds, TypeSealed, StartsSuffix, IsPrefix;
    if e.Binary? {
      SettleKeepsSeal(v, e.right, next);
    } else if e.Unary? {
      SettleKeepsSeal(v, e.operand, next);
    } else if e.IfExpr? {
      SettleKeepsArmsSeal(v, e.arms, next);
      assert SimpleSealed(v, SettleExpr(e), next) == SimpleSealed(v, e, next);
    } else if !e.Cast? {
      hide SettleExpr, Sealed, SimpleSealed;
      SettleKeepsKind(e);
      SealByKind(v, e, SettleExpr(e), next);
    }
  }

  lemma {:induction false} SettleKeepsArmsSeal(v: Version, arms: ExprArms, next: Token)
    ensures ArmsSealed(v, SettleArms(arms), next) == ArmsSealed(v, arms, next)
    decreases arms
  {
    hide TokenBinds, Sealed, SettleExpr;
    match arms
    case ElseExpr(expr) => SettleKeepsSeal(v, expr, next);
    case ElseIfExpr(_, _, rest) => SettleKeepsArmsSeal(v, rest, next);
  }

  lemma {:induction false} SettleKeepsSpine(e: Expr, min: nat)
    ensures Spine(SettleExpr(e), min) == Spine(e, min)
  {
    hide SettleBody, SettleFields, SettleArgs, SettleHoles, SettleArms, Precedence;
    if e.Binary? {
      SettleKeepsSpine(e.left, min);
    }
  }

  lemma {:induction false} SettleKeepsVars(es: Exprs)
    ensures AllVars(SettleExprs(es)) == AllVars(es)
  {
    hide SettleBody, SettleFields, SettleArgs, SettleHoles, SettleArms;
    if es.MoreExprs? {
      SettleKeepsVars(es.tail);
    }
  }

  // ----- settling keeps the printed tokens -----

  lemma {:induction false} ExprPrintsSame(e: Expr, k: Tokens)
    ensures EmitExpr(SettleExpr(e), k) == EmitExpr(e, k)
    decreases e
  {
    hide EmitType;
    match e
    case FunctionDef(body) => BodyPrintsSame(body, k);
    case Index(prefix, index) =>
      ExprPrintsSame(index, Tok(Sign(RightBracket), k));
      ExprPrintsSame(prefix, Tok(Sign(LeftBracket), EmitExpr(index, Tok(Sign(RightBracket), k))));
    case FieldAccess(prefix, name) => ExprPrintsSame(prefix, Tok(Sign(Dot), Tok(Identifier(name), k)));
    case Call(callee, selector, args) =>
      ArgsPrintSame(args, k);
      ExprPrintsSame(callee, EmitMethod(selector, EmitArgs(args, k)));
    case Paren(inner) => ExprPrintsSame(inner, Tok(Sign(RightParen), k));
    case Table(fields) => FieldsPrintSame(fields, Tok(Sign(RightBrace), k));
    case Binary(left, op, right) =>
      ExprPrintsSame(right, k);
      ExprPrintsSame(left, Tok(BinToken(op), EmitExpr(right, k)));
    case Unary(_, operand) => ExprPrintsSame(operand, k);
    case IfExpr(condition, thenExpr, arms) =>
      ArmsPrintSame(arms, k);
      ExprPrintsSame(thenExpr, EmitArms(arms, k));
      ExprPrintsSame(condition, Tok(Word(KwThen), EmitExpr(thenExpr, EmitArms(arms, k))));
    case Interp(_, holes) => HolesPrintSame(holes, k);
    case Cast(expr, annotation) => ExprPrintsSame(expr, Tok(Sign(DoubleColon), EmitType(annotation, k)));
    case _ =>
  }

  lemma {:induction false} ExprsPrintSame(es: Exprs, k: Tokens)
    ensures EmitExprs(SettleExprs(es), k) == EmitExprs(es, k)
    decreases es
  {
    hide EmitExpr, SettleExpr;
    if es.MoreExprs? {
      ExprsPrintSame(es.tail, k);
      ExprPrintsSame(es.head, if es.tail.NoExprs? then k else Tok(Sign(Comma), EmitExprs(es.tail, k)));
    }
  }

  lemma {:induction false} ArgsPrintSame(args: Args, k: Tokens)
    ensures EmitArgs(SettleArgs(args), k) == EmitArgs(args, k)
    decreases args
  {
    hide EmitExprs, SettleExprs, EmitFields, SettleFields;
    match args
    case ParenArgs(exprs) => ExprsPrintSame(exprs, Tok(Sign(RightParen), k));
    case TableArg(fields) => FieldsPrintSame(fields, Tok(Sign(RightBrace), k));
    case StringArg(_) =>
  }

  lemma {:induction false} FieldsPrintSame(fields: Fields, k: Tokens)
    ensures EmitFields(SettleFields(fields), k) == EmitFields(fields, k)
    decreases fields
  {
    hide EmitField, SettleField;
    if fields.MoreFields? {
      FieldsPrintSame(fields.tail, k);
      FieldPrintsSame(fields.head, if fields.tail.NoFields? then k else Tok(Sign(Comma), EmitFields(fields.tail, k)));
    }
  }

  lemma {:induction false} FieldPrintsSame(f: Field, k: Tokens)
    ensures EmitField(SettleField(f), k) == EmitField(f, k)
    decreases f
  {
    hide EmitExpr, SettleExpr;
    ExprPrintsSame(f.value, k);
    if f.Bracketed? {
      ExprPrintsSame(f.key, Tok(Sign(RightBracket), Tok(Sign(Equal), EmitExpr(f.value, k))));
    }
  }

  lemma {:induction false} ArmsPrintSame(arms: ExprArms, k: Tokens)
    ensures EmitArms(SettleArms(arms), k) == EmitArms(arms, k)
    decreases arms
  {
    hide EmitExpr, SettleExpr;
    match arms
    case ElseExpr(expr) => ExprPrintsSame(expr, k);
    case ElseIfExpr(condition, expr, rest) =>
      ArmsPrintSame(rest, k);
      ExprPrintsSame(expr, EmitArms(rest, k));
      ExprPrintsSame(condition, Tok(Word(KwThen), EmitExpr(expr, EmitArms(rest, k))));
  }

  lemma {:induction false} HolesPrintSame(holes: Holes, k: Tokens)
    ensures EmitHoles(SettleHoles(holes), k) == EmitHoles(holes, k)
    decreases holes
  {
    hide EmitExpr, SettleExpr;
    match holes
    case LastHole(expr, text) => ExprPrintsSame(expr, Tok(InterpEnd(text), k));
    case MoreHoles(expr, text, rest) =>
      HolesPrintSame(rest, k);
      ExprPrintsSame(expr, Tok(InterpMid(text), EmitHoles(rest, k)));
  }

  lemma {:induction false} BodyPrintsSame(body: Body, k: Tokens)
    ensures EmitBody(SettleBody(body), k) == EmitBody(body, k)
    decreases body
  {
    hide EmitBlock, SettleBlock;
    BlockPrintsSame(body.block, Tok(Word(KwEnd), k));
  }

  lemma {:induction false} BlockPrintsSame(b: Block, k: Tokens)
    ensures EmitBlock(SettleBlock(b), k) == EmitBlock(b, k)
    decreases b, 0
  {
    hide EmitStmts, SettleStmts, EmitExprs, SettleExprs;
    if b.last.Return? {
      ExprsPrintSame(b.last.exprs, k);
    }
    StmtsPrintSame(b.stmts, true, EmitLast(b.last, k));
  }

  lemma {:induction false} StmtsPrintSame(ss: Stmts, safe: bool, k: Tokens)
    ensures EmitStmts(SettleStmts(ss, safe), safe, k) == EmitStmts(ss, safe, k)
    decreases ss
  {
    hide SettleStmt, StmtStartsWithParen, NeedsGuard;
    if ss.MoreStmts? {
      var rest := EmitStmts(ss.tail, ss.head.Empty?, k);
      StmtsPrintSame(ss.tail, ss.head.Empty?, k);
      StmtPrintsSame(ss.head, rest);
      SettleKeepsGuard(ss.head, safe);
      SettleKeepsGuard(ss.head, true);
      GuardFacts(ss.head, safe);
      var settled := MoreStmts(SettleStmt(ss.head), SettleStmts(ss.tail, ss.head.Empty?));
      if NeedsGuard(ss.head, safe) {
        assert EmitStmts(settled, true, k) == EmitStmt(ss.head, rest);
        assert EmitStmts(MoreStmts(Empty, settled), safe, k) == Tok(Sign(Semicolon), EmitStmts(settled, true, k));
      } else {
        assert EmitStmts(settled, safe, k) == EmitStmt(ss.head, rest);
      }
    }
  }

  lemma GuardFacts(s: Stmt, safe: bool)
    ensures !NeedsGuard(Empty, safe) && !NeedsGuard(s, true)
  {
  }

  lemma {:induction false} StmtPrintsSame(s: Stmt, k: Tokens)
    ensures EmitStmt(SettleStmt(s), k) == EmitStmt(s, k)
    decreases s
  {
    hide EmitExpr, SettleExpr, EmitExprs, SettleExprs, EmitBlock, SettleBlock, EmitBody, SettleBody, EmitStmtArms,
         SettleStmtArms;
    var end := Tok(Word(KwEnd), k);
    match s
    case Assign(targets, values) =>
      ExprsPrintSame(values, k);
      ExprsPrintSame(targets, Tok(Sign(Equal), EmitExprs(values, k)));
    case CallStmt(call) => ExprPrintsSame(call, k);
    case Do(block) => BlockPrintsSame(block, end);
    case While(condition, block) =>
      BlockPrintsSame(block, end);
      ExprPrintsSame(condition, EmitLoopBody(block, k));
    case Repeat(block, condition) =>
      ExprPrintsSame(condition, k);
      BlockPrintsSame(block, Tok(Word(KwUntil), EmitExpr(condition, k)));
    case If(condition, block, arms) =>
      StmtArmsPrintSame(arms, k);
      BlockPrintsSame(block, EmitStmtArms(arms, k));
      ExprPrintsSame(condition, Tok(Word(KwThen), EmitBlock(block, EmitStmtArms(arms, k))));
    case NumericFor(_, start, limit, step, block) =>
      var body := EmitLoopBody(block, k);
      BlockPrintsSame(block, end);
      StepPrintsSame(step, body);
      ExprPrintsSame(limit, EmitStep(step, body));
      ExprPrintsSame(start, Tok(Sign(Comma), EmitExpr(limit, EmitStep(step, body))));
    case GenericFor(_, exprs, block) =>
      BlockPrintsSame(block, end);
      ExprsPrintSame(exprs, EmitLoopBody(block, k));
    case FunctionDecl(_, _, body) => BodyPrintsSame(body, k);
    case LocalFunction(_, body) => BodyPrintsSame(body, k);
    case Local(_, values) => ExprsPrintSame(values, k);
    case Compound(target, op, value) =>
      ExprPrintsSame(value, k);
      ExprPrintsSame(target, Tok(CompoundToken(op), EmitExpr(value, k)));
    case _ =>
  }

  lemma {:induction false} StepPrintsSame(step: Option<Expr>, k: Tokens)
    requires k.Tok?
    ensures EmitStep(SettleStep(step), k) == EmitStep(step, k)
    decreases step
  {
    hide EmitExpr, SettleExpr;
    if step.Some? {
      ExprPrintsSame(step.value, k);
    }
  }

  lemma {:induction false} StmtArmsPrintSame(arms: StmtArms, k: Tokens)
    ensures EmitStmtArms(SettleStmtArms(arms), k) == EmitStmtArms(arms, k)
    decreases arms
  {
    hide EmitExpr, SettleExpr, EmitBlock, SettleBlock;
    match arms
    case EndIf =>
    case Else(block) => BlockPrintsSame(block, Tok(Word(KwEnd), k));
    case ElseIf(condition, block, rest) =>
      StmtArmsPrintSame(rest, k);
      BlockPrintsSame(block, EmitStmtArms(rest, k));
      ExprPrintsSame(condition, Tok(Word(KwThen), EmitBlock(block, EmitStmtArms(rest, k))));
  }

  // ----- settling settles -----

  lemma {:induction false} ExprSettles(v: Version, e: Expr)
    requires v.HasEmptyStatement() && Canonical(v, false, e)
    ensures Canonical(v, true, SettleExpr(e))
    decreases e
  {
    hide Sealed, SimpleSealed, Spine, CanonicalType, TokenBinds, Precedence, BinToken, Bitwise, RightMinimum,
         CanonicalBody, CanonicalFields, CanonicalHoles, CanonicalArgs, SettleBody, SettleFields, SettleHoles,
         SettleArgs;
    match e
    case FunctionDef(body) => BodySettles(v, body);
    case Index(prefix, index) =>
      ExprSettles(v, prefix);
      ExprSettles(v, index);
    case FieldAccess(prefix, name) => ExprSettles(v, prefix);
    case Call(callee, selector, args) =>
      ExprSettles(v, callee);
      ArgsSettle(v, args);
    case Paren(inner) => ExprSettles(v, inner);
    case Table(fields) => FieldsSettle(v, fields);
    case Binary(left, op, right) =>
      ExprSettles(v, left);
      ExprSettles(v, right);
      SettleKeepsSeal(v, left, BinToken(op));
      SettleKeepsSpine(right, RightMinimum(op));
    case Unary(_, operand) =>
      ExprSettles(v, operand);
      SettleKeepsSpine(operand, UNARY_PRECEDENCE);
    case Interp(_, holes) => HolesSettle(v, holes);
    case _ =>
  }

  lemma {:induction false} ExprsSettle(v: Version, es: Exprs)
    requires v.HasEmptyStatement() && CanonicalExprs(v, false, es)
    ensures CanonicalExprs(v, true, SettleExprs(es))
    decreases es
  {
    hide Canonical, SettleExpr;
    if es.MoreExprs? {
      ExprSettles(v, es.head);
      ExprsSettle(v, es.tail);
    }
  }

  lemma {:induction false} ArgsSettle(v: Version, args: Args)
    requires v.HasEmptyStatement() && CanonicalArgs(v, false, args)
    ensures CanonicalArgs(v, true, SettleArgs(args))
    decreases args
  {
    match args
    case ParenArgs(exprs) => ExprsSettle(v, exprs);
    case TableArg(fields) => FieldsSettle(v, fields);
    case StringArg(_) =>
  }

  lemma {:induction false} FieldsSettle(v: Version, fields: Fields)
    requires v.HasEmptyStatement() && CanonicalFields(v, false, fields)
    ensures CanonicalFields(v, true, SettleFields(fields))
    decreases fields, 1
  {
    hide Canonical, SettleExpr;
    if fields.MoreFields? {
      var f := fields.head;
      ExprSettles(v, f.value);
      if f.Bracketed? {
        ExprSettles(v, f.key);
      }
      assert CanonicalField(v, true, SettleField(f));
      FieldsSettle(v, fields.tail);
    }
  }

  lemma {:induction false} HolesSettle(v: Version, holes: Holes)
    requires v.HasEmptyStatement() && CanonicalHoles(v, false, holes)
    ensures CanonicalHoles(v, true, SettleHoles(holes))
    decreases holes
  {
    hide Canonical, SettleExpr;
    ExprSettles(v, holes.expr);
    if holes.MoreHoles? {
      HolesSettle(v, holes.rest);
    }
  }

  lemma {:induction false} BodySettles(v: Version, body: Body)
    requires v.HasEmptyStatement() && CanonicalBody(v, false, body)
    ensures CanonicalBody(v, true, SettleBody(body))
    decreases body
  {
    hide CanonicalBlock, SettleBlock;
    BlockSettles(v, body.block);
  }

  lemma {:induction false} BlockSettles(v: Version, b: Block)
    requires v.HasEmptyStatement() && CanonicalBlock(v, false, b)
    ensures CanonicalBlock(v, true, SettleBlock(b))
    decreases b
  {
    hide CanonicalStmts, SettleStmts, CanonicalExprs, SettleExprs;
    StmtsSettle(v, b.stmts, true);
    if b.last.Return? {
      ExprsSettle(v, b.last.exprs);
    }
  }

  lemma {:induction false} StmtsSettle(v: Version, ss: Stmts, safe: bool)
    requires v.HasEmptyStatement() && CanonicalStmts(v, false, ss, safe)
    ensures CanonicalStmts(v, true, SettleStmts(ss, safe), safe)
    decreases ss
  {
    hide SettleStmt, NeedsGuard, Canonical, CanonicalExprs, CanonicalBlock;
    if ss.MoreStmts? {
      StmtsSettle(v, ss.tail, ss.head.Empty?);
      StmtSettles(v, ss.head);
      SettleKeepsGuard(ss.head, safe);
      SettleKeepsGuard(ss.head, true);
      GuardFacts(ss.head, safe);
      var settled := MoreStmts(SettleStmt(ss.head), SettleStmts(ss.tail, ss.head.Empty?));
      if NeedsGuard(ss.head, safe) {
        assert CanonicalStmts(v, true, settled, true);
      } else {
        assert CanonicalStmts(v, true, settled, safe);
      }
    }
  }

  lemma {:induction false} StmtSettles(v: Version, s: Stmt)
    requires v.HasEmptyStatement() && CanonicalStmt(v, false, s)
    ensures CanonicalStmt(v, true, SettleStmt(s))
    decreases s
  {
    hide Canonical, SettleExpr, CanonicalExprs, SettleExprs, CanonicalBlock, SettleBlock, CanonicalBody, SettleBody,
         IsVar,
      AllVars, CanonicalStmtArms, SettleStmtArms, CanonicalBindings, Closers;
    match s
    case Assign(targets, values) =>
      ExprsSettle(v, targets);
      ExprsSettle(v, values);
      SettleKeepsVars(targets);
    case CallStmt(call) =>
      ExprSettles(v, call);
      CallStays(call);
    case Do(block) => BlockSettles(v, block);
    case While(condition, block) =>
      ExprSettles(v, condition);
      BlockSettles(v, block);
    case Repeat(block, condition) =>
      ExprSettles(v, condition);
      BlockSettles(v, block);
    case If(condition, block, arms) =>
      ExprSettles(v, condition);
      BlockSettles(v, block);
      StmtArmsSettle(v, arms);
    case NumericFor(_, start, limit, step, block) =>
      ExprSettles(v, start);
      ExprSettles(v, limit);
      StepSettles(v, step);
      BlockSettles(v, block);
    case GenericFor(_, exprs, block) =>
      ExprsSettle(v, exprs);
      BlockSettles(v, block);
    case FunctionDecl(_, _, body) => BodySettles(v, body);
    case LocalFunction(_, body) => BodySettles(v, body);
    case Local(_, values) => ExprsSettle(v, values);
    case _ =>
  }

  lemma CallStays(e: Expr)
    requires e.Call?
    ensures SettleExpr(e).Call?
  {
  }

  lemma {:induction false} StepSettles(v: Version, step: Option<Expr>)
    requires v.HasEmptyStatement() && CanonicalStep(v, false, step)
    ensures CanonicalStep(v, true, SettleStep(step))
    decreases step
  {
    hide Canonical, SettleExpr;
    if step.Some? {
      ExprSettles(v, step.value);
    }
  }

  lemma {:induction false} StmtArmsSettle(v: Version, arms: StmtArms)
    requires v.HasEmptyStatement() && CanonicalStmtArms(v, false, arms)
    ensures CanonicalStmtArms(v, true, SettleStmtArms(arms))
    decreases arms
  {
    hide Canonical, SettleExpr, CanonicalBlock, SettleBlock;
    match arms
    case EndIf =>
    case Else(block) => BlockSettles(v, block);
    case ElseIf(condition, block, rest) =>
      ExprSettles(v, condition);
      BlockSettles(v, block);
      StmtArmsSettle(v, rest);
  }
}
