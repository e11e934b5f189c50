/** The token sequence the compact printer writes (`compact.rs`), and the two structural queries it
    consults (`query.rs`).

    `Emit…(x, k)` is the tokens of `x` followed by the tokens `k`. */
module Emission {
  import opened Wrappers
  import opened LuaSyntax

  // ----- query.rs -----

  predicate ExprStartsWithParen(e: Expr) {
    match e
    case Paren(_) => true
    case Call(callee, _, _) => ExprStartsWithParen(callee)
    case FieldAccess(prefix, _) => ExprStartsWithParen(prefix)
    case Index(prefix, _) => ExprStartsWithParen(prefix)
    case Binary(left, _, _) => ExprStartsWithParen(left)
    case Cast(expr, _) => ExprStartsWithParen(expr)
    case _ => false
  }

  predicate StmtStartsWithParen(s: Stmt) {
    match s
    case CallStmt(call) => ExprStartsWithParen(call)
    case Assign(targets, _) => targets.MoreExprs? && ExprStartsWithParen(targets.head)
    case Compound(target, _, _) => ExprStartsWithParen(target)
    case _ => false
  }

  predicate ExprStartsWithBrace(e: Expr) {
    match e
    case Table(_) => true
    case Call(callee, _, _) => ExprStartsWithBrace(callee)
    case FieldAccess(prefix, _) => ExprStartsWithBrace(prefix)
    case Index(prefix, _) => ExprStartsWithBrace(prefix)
    case Binary(left, _, _) => ExprStartsWithBrace(left)
    case Cast(expr, _) => ExprStartsWithBrace(expr)
    case _ => false
  }

  // ----- types -----

  function EmitType(t: Type, k: Tokens): Tokens
    decreases t
  {
    match t
    case TypeName(name) => Tok(Identifier(name), k)
    case Generic(name, args) =>
      Tok(Identifier(name), Tok(Sign(Less), EmitTypes(args, Sign(Comma), Tok(Sign(Greater), k))))
    case Optional(inner) => EmitType(inner, Tok(Sign(Question), k))
    case Union(types) => EmitTypes(types, Sign(Pipe), k)
    case Intersection(types) => EmitTypes(types, Sign(Ampersand), k)
    case ParenType(inner) => Tok(Sign(LeftParen), EmitType(inner, Tok(Sign(RightParen), k)))
  }

  function EmitTypes(types: Types, separator: Token, k: Tokens): Tokens
    decreases types
  {
    match types
    case NoTypes => k
    case MoreTypes(head, tail) =>
      EmitType(head, if tail.NoTypes? then k else Tok(separator, EmitTypes(tail, separator, k)))
  }

  // ----- expressions -----

  /** The tokens an expression can start with. */
  predicate StartsExpr(t: Token) {
    match t
    case Word(w) => w.KwNil? || w.KwTrue? || w.KwFalse? || w.KwFunction? || w.KwIf? || w.KwNot?
    case Sign(s) => s.DotDotDot? || s.LeftParen? || s.LeftBrace? || s.Minus? || s.Hash? || s.Tilde?
    case InterpMid(_) => false
    case InterpEnd(_) => false
    case _ => true
  }

  function EmitExpr(e: Expr, k: Tokens): (r: Tokens)
    ensures r.Tok? && StartsExpr(r.head)
    decreases e
  {
    match e
    case Nil => Tok(Word(KwNil), k)
    case False => Tok(Word(KwFalse), k)
    case True => Tok(Word(KwTrue), k)
    case VarArg => Tok(Sign(DotDotDot), k)
    case Number(text) => Tok(Numeral(text), k)
    case StringLit(text) => Tok(Quoted(text), k)
    case FunctionDef(body) => Tok(Word(KwFunction), EmitBody(body, k))
    case Name(name) => Tok(Identifier(name), k)
    case Index(prefix, index) =>
      EmitExpr(prefix, Tok(Sign(LeftBracket), EmitExpr(index, Tok(Sign(RightBracket), k))))
    case FieldAccess(prefix, name) => EmitExpr(prefix, Tok(Sign(Dot), Tok(Identifier(name), k)))
    case Call(callee, selector, args) => EmitExpr(callee, EmitMethod(selector, EmitArgs(args, k)))
    case Paren(inner) => Tok(Sign(LeftParen), EmitExpr(inner, Tok(Sign(RightParen), k)))
    case Table(fields) => EmitTable(fields, k)
    case Binary(left, op, right) => EmitExpr(left, Tok(BinToken(op), EmitExpr(right, k)))
    case Unary(op, operand) => Tok(UnToken(op), EmitExpr(operand, k))
    case IfExpr(condition, thenExpr, arms) =>
      Tok(Word(KwIf), EmitExpr(condition, Tok(Word(KwThen), EmitExpr(thenExpr, EmitArms(arms, k)))))
    case PlainInterp(text) => Tok(InterpWhole(text), k)
    case Interp(text, holes) => Tok(InterpBegin(text), EmitHoles(holes, k))
    case Cast(expr, annotation) => EmitExpr(expr, Tok(Sign(DoubleColon), EmitType(annotation, k)))
  }

  function EmitMethod(selector: Option<string>, k: Tokens): Tokens {
    match selector
    case None => k
    case Some(name) => Tok(Sign(Colon), Tok(Identifier(name), k))
  }

  function EmitArgs(args: Args, k: Tokens): (r: Tokens)
    ensures r.Tok?
    decreases args
  {
    match args
    case ParenArgs(exprs) => Tok(Sign(LeftParen), EmitExprs(exprs, Tok(Sign(RightParen), k)))
    case TableArg(fields) => EmitTable(fields, k)
    case StringArg(text) => Tok(Quoted(text), k)
  }

  function EmitExprs(es: Exprs, k: Tokens): (r: Tokens)
    ensures es.MoreExprs? ==> r.Tok? && StartsExpr(r.head)
    decreases es
  {
    match es
    case NoExprs => k
    case MoreExprs(head, tail) =>
      EmitExpr(head, if tail.NoExprs? then k else Tok(Sign(Comma), EmitExprs(tail, k)))
  }

  function EmitTable(fields: Fields, k: Tokens): (r: Tokens)
    ensures r.Tok? && r.head == Sign(LeftBrace)
    decreases fields, 1
  {
    Tok(Sign(LeftBrace), EmitFields(fields, Tok(Sign(RightBrace), k)))
  }

  function EmitFields(fields: Fields, k: Tokens): Tokens
    decreases fields, 0
  {
    match fields
    case NoFields => k
    case MoreFields(head, tail) =>
      EmitField(head, if tail.NoFields? then k else Tok(Sign(Comma), EmitFields(tail, k)))
  }

  function EmitField(f: Field, k: Tokens): (r: Tokens)
    ensures r.Tok? && (StartsExpr(r.head) || r.head == Sign(LeftBracket))
    decreases f
  {
    match f
    case Bracketed(key, value) =>
      Tok(Sign(LeftBracket), EmitExpr(key, Tok(Sign(RightBracket), Tok(Sign(Equal), EmitExpr(value, k)))))
    case Named(name, value) => Tok(Identifier(name), Tok(Sign(Equal), EmitExpr(value, k)))
    case Positional(value) => EmitExpr(value, k)
  }

  function EmitArms(arms: ExprArms, k: Tokens): (r: Tokens)
    ensures r.Tok?
    decreases arms
  {
    match arms
    case ElseExpr(expr) => Tok(Word(KwElse), EmitExpr(expr, k))
    case ElseIfExpr(condition, expr, rest) =>
      Tok(Word(KwElseIf), EmitExpr(condition, Tok(Word(KwThen), EmitExpr(expr, EmitArms(rest, k)))))
  }

  function EmitHoles(holes: Holes, k: Tokens): (r: Tokens)
    ensures r.Tok? && StartsExpr(r.head)
    decreases holes
  {
    match holes
    case LastHole(expr, text) => EmitExpr(expr, Tok(InterpEnd(text), k))
    case MoreHoles(expr, text, rest) => EmitExpr(expr, Tok(InterpMid(text), EmitHoles(rest, k)))
  }

  // ----- statements -----

  function EmitNames(names: Names, separator: Symbol, k: Tokens): Tokens {
    match names
    case NoNames => k
    case MoreNames(head, tail) =>
      Tok(Identifier(head), if tail.NoNames? then k else Tok(Sign(separator), EmitNames(tail, separator, k)))
  }

  function EmitBody(body: Body, k: Tokens): (r: Tokens)
    ensures r.Tok?
    decreases body
  {
    Tok(Sign(LeftParen),
        EmitParams(body.params, body.vararg,
                   Tok(Sign(RightParen), EmitBlock(body.block, Tok(Word(KwEnd), k)))))
  }

  function EmitParams(params: Names, vararg: bool, k: Tokens): Tokens {
    EmitNames(params, Comma,
              if !vararg then k
              else if params.NoNames? then Tok(Sign(DotDotDot), k)
              else Tok(Sign(Comma), Tok(Sign(DotDotDot), k)))
  }

  function EmitBlock(b: Block, k: Tokens): Tokens
    decreases b, 0
  {
    EmitStmts(b.stmts, true, EmitLast(b.last, k))
  }

  /** `safe` says that nothing a `(` could attach to precedes: no statement of the block, or a `;`. */
  function EmitStmts(ss: Stmts, safe: bool, k: Tokens): Tokens
    decreases ss
  {
    match ss
    case NoStmts => k
    case MoreStmts(head, tail) =>
      if NeedsGuard(head, safe)
      then Tok(Sign(Semicolon), EmitStmt(head, EmitStmts(tail, head.Empty?, k)))
      else EmitStmt(head, EmitStmts(tail, head.Empty?, k))
  }

  predicate NeedsGuard(s: Stmt, safe: bool) { !safe && StmtStartsWithParen(s) }

  function EmitLast(last: Last, k: Tokens): Tokens {
    match last
    case NoLast => k
    case Return(exprs) => Tok(Word(KwReturn), EmitExprs(exprs, k))
    case BreakLast => Tok(Word(KwBreak), k)
    case Continue => Tok(Identifier("continue"), k)
  }

  function EmitBindings(bindings: Bindings, k: Tokens): Tokens {
    match bindings
    case NoBindings => k
    case MoreBindings(head, tail) =>
      EmitBinding(head, if tail.NoBindings? then k else Tok(Sign(Comma), EmitBindings(tail, k)))
  }

  function EmitBinding(b: Binding, k: Tokens): Tokens {
    Tok(Identifier(b.name),
        match b.attribute
        case None => k
        case Some(name) => Tok(Sign(Less), Tok(Identifier(name), Tok(Sign(Greater), k))))
  }

  function EmitStmt(s: Stmt, k: Tokens): Tokens
    decreases s
  {
    match s
    case Assign(targets, values) => EmitExprs(targets, Tok(Sign(Equal), EmitExprs(values, k)))
    case CallStmt(call) => EmitExpr(call, k)
    case Do(block) => EmitLoopBody(block, k)
    case While(condition, block) =>
      Tok(Word(KwWhile), EmitExpr(condition, EmitLoopBody(block, k)))
    case Repeat(block, condition) =>
      Tok(Word(KwRepeat), EmitBlock(block, Tok(Word(KwUntil), EmitExpr(condition, k))))
    case If(condition, block, arms) =>
      Tok(Word(KwIf), EmitExpr(condition, Tok(Word(KwThen), EmitBlock(block, EmitStmtArms(arms, k)))))
    case NumericFor(name, start, limit, step, block) =>
      var bounds := EmitExpr(start, Tok(Sign(Comma), EmitExpr(limit, EmitStep(step, EmitLoopBody(block, k)))));
      Tok(Word(KwFor), Tok(Identifier(name), Tok(Sign(Equal), bounds)))
    case GenericFor(names, exprs, block) =>
      Tok(Word(KwFor), EmitNames(names, Comma, Tok(Word(KwIn), EmitExprs(exprs, EmitLoopBody(block, k)))))
    case FunctionDecl(path, selector, body) =>
      Tok(Word(KwFunction), EmitNames(path, Dot, EmitMethod(selector, EmitBody(body, k))))
    case LocalFunction(name, body) =>
      Tok(Word(KwLocal), Tok(Word(KwFunction), Tok(Identifier(name), EmitBody(body, k))))
    case Local(bindings, values) =>
      Tok(Word(KwLocal), EmitBindings(bindings,
          if values.NoExprs? then k else Tok(Sign(Equal), EmitExprs(values, k))))
    case Empty => Tok(Sign(Semicolon), k)
    case Goto(name) => Tok(Word(KwGoto), Tok(Identifier(name), k))
    case Label(name) => Tok(Sign(DoubleColon), Tok(Identifier(name), Tok(Sign(DoubleColon), k)))
    case Break => Tok(Word(KwBreak), k)
    case Compound(target, op, value) => EmitExpr(target, Tok(CompoundToken(op), EmitExpr(value, k)))
  }

  /** `do … end` */
  function EmitLoopBody(block: Block, k: Tokens): (r: Tokens)
    ensures r.Tok?
    decreases block, 1
  {
    Tok(Word(KwDo), EmitBlock(block, Tok(Word(KwEnd), k)))
  }

  function EmitStep(step: Option<Expr>, k: Tokens): (r: Tokens)
    requires k.Tok?
    ensures r.Tok?
    decreases step
  {
    match step
    case None => k
    case Some(expr) => Tok(Sign(Comma), EmitExpr(expr, k))
  }

  function EmitStmtArms(arms: StmtArms, k: Tokens): (r: Tokens)
    ensures r.Tok?
    decreases arms
  {
    match arms
    case EndIf => Tok(Word(KwEnd), k)
    case Else(block) => Tok(Word(KwElse), EmitBlock(block, Tok(Word(KwEnd), k)))
    case ElseIf(condition, block, rest) =>
      Tok(Word(KwElseIf), EmitExpr(condition, Tok(Word(KwThen), EmitBlock(block, EmitStmtArms(rest, k)))))
  }

  // ----- the queries answer what they are asked -----

  /** Each query is the question about the first token written, for every expression. */
  lemma {:induction false} QueriesReadFirstToken(e: Expr, k: Tokens)
    ensures ExprStartsWithParen(e) <==> EmitExpr(e, k).head == Sign(LeftParen)
    ensures ExprStartsWithBrace(e) <==> EmitExpr(e, k).head == Sign(LeftBrace)
  {
    match e
    case Call(callee, selector, args) => QueriesReadFirstToken(callee, EmitMethod(selector, EmitArgs(args, k)));
    case FieldAccess(prefix, name) => QueriesReadFirstToken(prefix, Tok(Sign(Dot), Tok(Identifier(name), k)));
    case Index(prefix, index) =>
      QueriesReadFirstToken(prefix, Tok(Sign(LeftBracket), EmitExpr(index, Tok(Sign(RightBracket), k))));
    case Binary(left, op, right) => QueriesReadFirstToken(left, Tok(BinToken(op), EmitExpr(right, k)));
    case Cast(expr, annotation) =>
      QueriesReadFirstToken(expr, Tok(Sign(DoubleColon), EmitType(annotation, k)));
    case _ =>
  }

  lemma {:induction false} GuardReadsFirstToken(s: Stmt, k: Tokens)
    requires s.Assign? ==> s.targets.MoreExprs?
    ensures StmtStartsWithParen(s) <==> EmitStmt(s, k).Tok? && EmitStmt(s, k).head == Sign(LeftParen)
  {
    match s
    case Assign(targets, values) =>
      var rest := Tok(Sign(Equal), EmitExprs(values, k));
      QueriesReadFirstToken(targets.head,
                            if targets.tail.NoExprs? then rest else Tok(Sign(Comma), EmitExprs(targets.tail, rest)));
    case CallStmt(call) => QueriesReadFirstToken(call, k);
    case Compound(target, op, value) =>
      QueriesReadFirstToken(target, Tok(CompoundToken(op), EmitExpr(value, k)));
    case _ =>
  }
}
