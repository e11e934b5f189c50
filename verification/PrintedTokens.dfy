/** The printer only writes neighbours that the separator rules keep apart, and its braces nest. */
module PrintedTokens {
  import opened Wrappers
  import opened LuaSyntax
  import opened Emission
  import opened Grammar
  import opened CanonicalForm
  import opened Relex

  // ----- one more token in front -----

  /** Tokens that neither open nor close a brace or a hole. */
  predicate Neutral(t: Token) {
    t != Sign(LeftBrace) && t != Sign(RightBrace) && !t.InterpBegin? && !t.InterpMid? && !t.InterpEnd?
  }

  /** An operand's last token, which anything may follow. */
  lemma Operand(t: Token, braces: seq<nat>, k: Tokens)
    requires Neutral(t) && EndsOperand(t) && Printable(braces, k)
    ensures Printable(braces, Tok(t, k))
  {
  }

  /** Any other token, before the start of an operand. */
  lemma Before(t: Token, braces: seq<nat>, k: Tokens)
    requires Neutral(t) && t != Sign(Dot) && t != Sign(Colon) && Printable(braces, k)
    requires k.Tok? && StartsPlain(k.head)
    ensures Printable(braces, Tok(t, k))
  {
  }

  lemma BeforeName(t: Token, name: string, braces: seq<nat>, k: Tokens)
    requires Neutral(t) && Printable(braces, k)
    ensures Printable(braces, Tok(t, Tok(Identifier(name), k)))
  {
    Operand(Identifier(name), braces, k);
  }

  lemma ExprStartsPlain(t: Token)
    requires StartsExpr(t)
    ensures StartsPlain(t)
  {
  }

  // ----- types -----

  predicate StartsType(k: Tokens) { AtName(k) || AtSign(k, LeftParen) }

  lemma {:induction false} TypePrintable(t: Type, braces: seq<nat>, k: Tokens)
    requires CanonicalType(t) && Printable(braces, k)
    ensures Printable(braces, EmitType(t, k)) && StartsType(EmitType(t, k))
    decreases t
  {
    hide Printable, Size;
    match t
    case TypeName(name) => Operand(Identifier(name), braces, k);
    case Generic(name, args) =>
      var close := Tok(Sign(Greater), k);
      Operand(Sign(Greater), braces, k);
      TypesPrintable(args, Comma, braces, close);
      var inner := EmitTypes(args, Sign(Comma), close);
      LessBefore(args, braces, close);
      Operand(Identifier(name), braces, Tok(Sign(Less), inner));
    case Optional(inner) =>
      Operand(Sign(Question), braces, k);
      TypePrintable(inner, braces, Tok(Sign(Question), k));
    case Union(types) => TypesPrintable(types, Pipe, braces, k);
    case Intersection(types) => TypesPrintable(types, Ampersand, braces, k);
    case ParenType(inner) =>
      Operand(Sign(RightParen), braces, k);
      TypePrintable(inner, braces, Tok(Sign(RightParen), k));
      Before(Sign(LeftParen), braces, EmitType(inner, Tok(Sign(RightParen), k)));
  }

  lemma LessBefore(args: Types, braces: seq<nat>, k: Tokens)
    requires Printable(braces, EmitTypes(args, Sign(Comma), k)) && AtSign(k, Greater)
    requires args.MoreTypes? ==> StartsType(EmitTypes(args, Sign(Comma), k))
    ensures Printable(braces, Tok(Sign(Less), EmitTypes(args, Sign(Comma), k)))
  {
  }

  lemma {:induction false} TypesPrintable(types: Types, separator: Symbol, braces: seq<nat>, k: Tokens)
    requires CanonicalTypes(types) && separator in [Comma, Pipe, Ampersand] && Printable(braces, k)
    ensures Printable(braces, EmitTypes(types, Sign(separator), k))
    ensures types.MoreTypes? ==> StartsType(EmitTypes(types, Sign(separator), k))
    decreases types
  {
    hide Printable, Size;
    if types.MoreTypes? {
      if types.tail.NoTypes? {
        TypePrintable(types.head, braces, k);
      } else {
        var rest := EmitTypes(types.tail, Sign(separator), k);
        TypesPrintable(types.tail, separator, braces, k);
        Before(Sign(separator), braces, rest);
        TypePrintable(types.head, braces, Tok(Sign(separator), rest));
      }
    }
  }

  // ----- expressions -----

  lemma {:induction false} ExprPrintable(v: Version, e: Expr, braces: seq<nat>, k: Tokens)
    requires Canonical(v, false, e) && Printable(braces, k)
    ensures Printable(braces, EmitExpr(e, k))
    decreases e, 0
  {
    hide Printable, Size, BinToken, UnToken, Sealed, SimpleSealed, Spine, StartsExpr, StartsPlain, EndsOperand;
    if Atom(e) {
      AtomPrintable(e, braces, k);
    } else {
      match e
      case FunctionDef(body) => BodyPrintable(v, body, KwFunction, braces, k);
      case Index(prefix, index) =>
        Operand(Sign(RightBracket), braces, k);
        WholePrintable(v, Sign(LeftBracket), index, braces, Tok(Sign(RightBracket), k));
        ExprPrintable(v, prefix, braces, Tok(Sign(LeftBracket), EmitExpr(index, Tok(Sign(RightBracket), k))));
      case FieldAccess(prefix, name) =>
        BeforeName(Sign(Dot), name, braces, k);
        ExprPrintable(v, prefix, braces, Tok(Sign(Dot), Tok(Identifier(name), k)));
      case Call(callee, selector, args) =>
        ArgsPrintable(v, args, braces, k);
        SelectorPrintable(selector, braces, EmitArgs(args, k));
        ExprPrintable(v, callee, braces, EmitMethod(selector, EmitArgs(args, k)));
      case Paren(inner) =>
        Operand(Sign(RightParen), braces, k);
        WholePrintable(v, Sign(LeftParen), inner, braces, Tok(Sign(RightParen), k));
      case Table(fields) => TablePrintable(v, fields, braces, k);
      case Binary(left, op, right) =>
        OperatorsNeutral(op);
        WholePrintable(v, BinToken(op), right, braces, k);
        ExprPrintable(v, left, braces, Tok(BinToken(op), EmitExpr(right, k)));
      case Unary(op, operand) =>
        UnaryNeutral(op);
        WholePrintable(v, UnToken(op), operand, braces, k);
      case IfExpr(condition, thenExpr, arms) =>
        ArmsPrintable(v, arms, braces, k);
        WholePrintable(v, Word(KwThen), thenExpr, braces, EmitArms(arms, k));
        WholePrintable(v, Word(KwIf), condition, braces, Tok(Word(KwThen), EmitExpr(thenExpr, EmitArms(arms, k))));
      case Interp(text, holes) =>
        HolesPrintable(v, holes, braces, k);
        BeginPrintable(text, braces, EmitHoles(holes, k));
      case Cast(expr, annotation) =>
        TypePrintable(annotation, braces, k);
        Operand(Sign(DoubleColon), braces, EmitType(annotation, k));
        ExprPrintable(v, expr, braces, Tok(Sign(DoubleColon), EmitType(annotation, k)));
      case _ =>
    }
  }

  predicate Atom(e: Expr) {
    e.Nil? || e.False? || e.True? || e.VarArg? || e.Number? || e.StringLit? || e.Name? || e.PlainInterp?
  }

  lemma AtomPrintable(e: Expr, braces: seq<nat>, k: Tokens)
    requires Atom(e) && Printable(braces, k)
    ensures Printable(braces, EmitExpr(e, k))
  {
    hide Printable;
    Operand(EmitExpr(e, k).head, braces, k);
  }

  lemma OperatorsNeutral(op: BinOp)
    ensures Neutral(BinToken(op)) && BinToken(op) != Sign(Dot) && BinToken(op) != Sign(Colon)
  {
  }

  lemma UnaryNeutral(op: UnOp)
    ensures Neutral(UnToken(op)) && UnToken(op) != Sign(Dot) && UnToken(op) != Sign(Colon)
  {
  }

  /** A token and a whole expression behind it. */
  lemma {:induction false} WholePrintable(v: Version, t: Token, e: Expr, braces: seq<nat>, k: Tokens)
    requires Canonical(v, false, e) && Printable(braces, k)
    requires Neutral(t) && t != Sign(Dot) && t != Sign(Colon)
    ensures Printable(braces, Tok(t, EmitExpr(e, k)))
    decreases e, 1
  {
    hide Printable, Canonical, StartsExpr, StartsPlain;
    ExprPrintable(v, e, braces, k);
    ExprStartsPlain(EmitExpr(e, k).head);
    Before(t, braces, EmitExpr(e, k));
  }

  lemma SelectorPrintable(selector: Option<string>, braces: seq<nat>, k: Tokens)
    requires Printable(braces, k)
    ensures Printable(braces, EmitMethod(selector, k))
  {
    hide Printable;
    if selector.Some? {
      BeforeName(Sign(Colon), selector.value, braces, k);
    }
  }

  /** The braces once a `{` is open. */
  function Deeper(braces: seq<nat>): seq<nat> { BracesAfter(braces, Sign(LeftBrace)) }

  lemma OpenBrace(braces: seq<nat>, k: Tokens)
    requires Printable(Deeper(braces), k) && k.Tok? && StartsPlain(k.head)
    ensures Printable(braces, Tok(Sign(LeftBrace), k))
  {
  }

  lemma CloseBrace(braces: seq<nat>, k: Tokens)
    requires Printable(braces, k)
    ensures Printable(Deeper(braces), Tok(Sign(RightBrace), k))
  {
    assert BracesAfter(Deeper(braces), Sign(RightBrace)) == braces;
  }

  lemma BeginPrintable(text: string, braces: seq<nat>, k: Tokens)
    requires Printable(braces + [0], k) && k.Tok?
    ensures Printable(braces, Tok(InterpBegin(text), k))
  {
  }

  lemma MidPrintable(text: string, braces: seq<nat>, k: Tokens)
    requires Printable(braces + [0], k) && k.Tok?
    ensures Printable(braces + [0], Tok(InterpMid(text), k))
  {
  }

  lemma EndPrintable(text: string, braces: seq<nat>, k: Tokens)
    requires Printable(braces, k)
    ensures Printable(braces + [0], Tok(InterpEnd(text), k))
  {
    assert BracesAfter(braces + [0], InterpEnd(text)) == braces;
  }

  lemma {:induction false} ArgsPrintable(v: Version, args: Args, braces: seq<nat>, k: Tokens)
    requires CanonicalArgs(v, false, args) && Printable(braces, k)
    ensures Printable(braces, EmitArgs(args, k))
    decreases args
  {
    hide Printable, StartsExpr;
    match args
    case ParenArgs(exprs) =>
      var close := Tok(Sign(RightParen), k);
      Operand(Sign(RightParen), braces, k);
      ExprsPrintable(v, exprs, braces, close);
      ListStart(exprs, close);
      Before(Sign(LeftParen), braces, EmitExprs(exprs, close));
    case TableArg(fields) => TablePrintable(v, fields, braces, k);
    case StringArg(text) => Operand(Quoted(text), braces, k);
  }

  lemma ListStart(es: Exprs, k: Tokens)
    requires k.Tok? && StartsPlain(k.head)
    ensures EmitExprs(es, k).Tok? && StartsPlain(EmitExprs(es, k).head)
  {
    hide StartsExpr, StartsPlain;
    if es.MoreExprs? {
      ExprStartsPlain(EmitExprs(es, k).head);
    }
  }

  lemma {:induction false} ExprsPrintable(v: Version, es: Exprs, braces: seq<nat>, k: Tokens)
    requires CanonicalExprs(v, false, es) && Printable(braces, k)
    ensures Printable(braces, EmitExprs(es, k))
    decreases es, 0
  {
    hide Printable, Canonical, EmitExpr, StartsExpr, StartsPlain;
    if es.MoreExprs? {
      if es.tail.NoExprs? {
        ExprPrintable(v, es.head, braces, k);
      } else {
        ExprsPrintable(v, es.tail, braces, k);
        ExprStartsPlain(EmitExprs(es.tail, k).head);
        Before(Sign(Comma), braces, EmitExprs(es.tail, k));
        ExprPrintable(v, es.head, braces, Tok(Sign(Comma), EmitExprs(es.tail, k)));
      }
    }
  }

  lemma {:induction false} TablePrintable(v: Version, fields: Fields, braces: seq<nat>, k: Tokens)
    requires CanonicalFields(v, false, fields) && Printable(braces, k)
    ensures Printable(braces, EmitTable(fields, k))
    decreases fields, 3
  {
    hide Printable, CanonicalFields, EmitFields, StartsPlain, StartsExpr;
    CloseBrace(braces, k);
    FieldsPrintable(v, fields, Deeper(braces), Tok(Sign(RightBrace), k));
    OpenBrace(braces, EmitFields(fields, Tok(Sign(RightBrace), k)));
  }

  lemma {:induction false} FieldsPrintable(v: Version, fields: Fields, braces: seq<nat>, k: Tokens)
    requires CanonicalFields(v, false, fields) && Printable(braces, k) && AtSign(k, RightBrace)
    ensures Printable(braces, EmitFields(fields, k))
    ensures EmitFields(fields, k).Tok? && StartsPlain(EmitFields(fields, k).head)
    decreases fields, 0
  {
    hide Printable, CanonicalField, EmitField;
    if fields.MoreFields? {
      if fields.tail.NoFields? {
        FieldPrintable(v, fields.head, braces, k);
      } else {
        FieldsPrintable(v, fields.tail, braces, k);
        Before(Sign(Comma), braces, EmitFields(fields.tail, k));
        FieldPrintable(v, fields.head, braces, Tok(Sign(Comma), EmitFields(fields.tail, k)));
      }
    }
  }

  lemma {:induction false} FieldPrintable(v: Version, f: Field, braces: seq<nat>, k: Tokens)
    requires CanonicalField(v, false, f) && Printable(braces, k)
    ensures Printable(braces, EmitField(f, k)) && StartsPlain(EmitField(f, k).head)
    decreases f
  {
    hide Printable, Canonical, EmitExpr, StartsExpr;
    match f
    case Bracketed(key, value) =>
      var value_ := Tok(Sign(Equal), EmitExpr(value, k));
      WholePrintable(v, Sign(Equal), value, braces, k);
      Operand(Sign(RightBracket), braces, value_);
      WholePrintable(v, Sign(LeftBracket), key, braces, Tok(Sign(RightBracket), value_));
    case Named(name, value) =>
      WholePrintable(v, Sign(Equal), value, braces, k);
      Operand(Identifier(name), braces, Tok(Sign(Equal), EmitExpr(value, k)));
    case Positional(value) =>
      ExprPrintable(v, value, braces, k);
      ExprStartsPlain(EmitExpr(value, k).head);
  }

  lemma {:induction false} ArmsPrintable(v: Version, arms: ExprArms, braces: seq<nat>, k: Tokens)
    requires CanonicalArms(v, false, arms) && Printable(braces, k)
    ensures Printable(braces, EmitArms(arms, k))
    decreases arms
  {
    hide Printable, Canonical, EmitExpr;
    match arms
    case ElseExpr(expr) => WholePrintable(v, Word(KwElse), expr, braces, k);
    case ElseIfExpr(condition, expr, rest) =>
      ArmsPrintable(v, rest, braces, k);
      WholePrintable(v, Word(KwThen), expr, braces, EmitArms(rest, k));
      WholePrintable(v, Word(KwElseIf), condition, braces, Tok(Word(KwThen), EmitExpr(expr, EmitArms(rest, k))));
  }

  /** Inside a hole the brace count starts afresh; the string goes on where it is back at zero. */
  lemma {:induction false} HolesPrintable(v: Version, holes: Holes, braces: seq<nat>, k: Tokens)
    requires CanonicalHoles(v, false, holes) && Printable(braces, k)
    ensures Printable(braces + [0], EmitHoles(holes, k))
    decreases holes
  {
    hide Printable, Canonical, EmitExpr;
    match holes
    case LastHole(expr, text) =>
      EndPrintable(text, braces, k);
      ExprPrintable(v, expr, braces + [0], Tok(InterpEnd(text), k));
    case MoreHoles(expr, text, rest) =>
      HolesPrintable(v, rest, braces, k);
      MidPrintable(text, braces, EmitHoles(rest, k));
      ExprPrintable(v, expr, braces + [0], Tok(InterpMid(text), EmitHoles(rest, k)));
  }

  // ----- statements -----

  /** `function`, or a name before it, and a function body. */
  lemma {:induction false} BodyPrintable(v: Version, body: Body, w: Keyword, braces: seq<nat>, k: Tokens)
    requires CanonicalBody(v, false, body) && Printable(braces, k)
    ensures Printable(braces, EmitBody(body, k)) && AtSign(EmitBody(body, k), LeftParen)
    ensures Printable(braces, Tok(Word(w), EmitBody(body, k)))
    decreases body
  {
    hide Printable, CanonicalBlock, EmitBlock, EmitParams;
    var end := Tok(Word(KwEnd), k);
    Operand(Word(KwEnd), braces, k);
    BlockPrintable(v, body.block, braces, end);
    Operand(Sign(RightParen), braces, EmitBlock(body.block, end));
    ParamsPrintable(body.params, body.vararg, braces, Tok(Sign(RightParen), EmitBlock(body.block, end)));
    Operand(Word(w), braces, EmitBody(body, k));
  }

  lemma ParamsPrintable(params: Names, vararg: bool, braces: seq<nat>, k: Tokens)
    requires Printable(braces, k) && AtSign(k, RightParen)
    ensures Printable(braces, Tok(Sign(LeftParen), EmitParams(params, vararg, k)))
  {
    hide Printable, EmitNames;
    Operand(Sign(DotDotDot), braces, k);
    Before(Sign(Comma), braces, Tok(Sign(DotDotDot), k));
    var tail := if !vararg then k
                else if params.NoNames? then Tok(Sign(DotDotDot), k)
                else Tok(Sign(Comma), Tok(Sign(DotDotDot), k));
    NamesPrintable(params, Comma, braces, tail);
    Before(Sign(LeftParen), braces, EmitNames(params, Comma, tail));
  }

  lemma {:induction false} NamesPrintable(names: Names, separator: Symbol, braces: seq<nat>, k: Tokens)
    requires separator == Comma || separator == Dot
    requires Printable(braces, k) && k.Tok? && StartsPlain(k.head)
    ensures Printable(braces, EmitNames(names, separator, k))
    ensures EmitNames(names, separator, k).Tok? && StartsPlain(EmitNames(names, separator, k).head)
    decreases names
  {
    hide Printable;
    if names.MoreNames? {
      if names.tail.NoNames? {
        Operand(Identifier(names.head), braces, k);
      } else {
        NamesPrintable(names.tail, separator, braces, k);
        SeparatorBefore(separator, names.tail, braces, k);
        Operand(Identifier(names.head), braces, Tok(Sign(separator), EmitNames(names.tail, separator, k)));
      }
    }
  }

  lemma SeparatorBefore(separator: Symbol, names: Names, braces: seq<nat>, k: Tokens)
    requires (separator == Comma || separator == Dot) && names.MoreNames?
    requires Printable(braces, EmitNames(names, separator, k))
    ensures Printable(braces, Tok(Sign(separator), EmitNames(names, separator, k)))
  {
  }

  lemma {:induction false} BlockPrintable(v: Version, b: Block, braces: seq<nat>, k: Tokens)
    requires CanonicalBlock(v, false, b) && Printable(braces, k)
    ensures Printable(braces, EmitBlock(b, k))
    decreases b, 0
  {
    hide Printable, CanonicalExprs, CanonicalStmts, EmitExprs, EmitStmts;
    if b.last.Return? {
      ExprsPrintable(v, b.last.exprs, braces, k);
      Operand(Word(KwReturn), braces, EmitExprs(b.last.exprs, k));
    } else {
      Operand(Word(KwBreak), braces, k);
      Operand(Identifier("continue"), braces, k);
    }
    StmtsPrintable(v, b.stmts, true, true, braces, EmitLast(b.last, k));
  }

  lemma {:induction false} StmtsPrintable(v: Version, ss: Stmts, safe: bool, safe': bool, braces: seq<nat>, k: Tokens)
    requires CanonicalStmts(v, false, ss, safe') && Printable(braces, k)
    ensures Printable(braces, EmitStmts(ss, safe, k))
    decreases ss
  {
    hide Printable, CanonicalStmt, EmitStmt, NeedsGuard;
    if ss.MoreStmts? {
      var rest := EmitStmts(ss.tail, ss.head.Empty?, k);
      StmtsPrintable(v, ss.tail, ss.head.Empty?, ss.head.Empty?, braces, k);
      StmtPrintable(v, ss.head, braces, rest);
      Operand(Sign(Semicolon), braces, EmitStmt(ss.head, rest));
    }
  }

  lemma {:induction false} StmtPrintable(v: Version, s: Stmt, braces: seq<nat>, k: Tokens)
    requires CanonicalStmt(v, false, s) && Printable(braces, k)
    ensures Printable(braces, EmitStmt(s, k))
    decreases s, 1
  {
    hide Printable, Canonical, CanonicalExprs, CanonicalBlock, CanonicalBody, CanonicalStmtArms, EmitExpr, EmitExprs,
         EmitBlock, EmitBody,
      EmitStmtArms, EmitNames, EmitBindings, CompoundToken, AllVars, CanonicalBindings, Closers, IsVar, StartsExpr;
    match s
    case Assign(targets, values) =>
      ListBehind(v, Sign(Equal), values, braces, k);
      ExprsPrintable(v, targets, braces, Tok(Sign(Equal), EmitExprs(values, k)));
    case CallStmt(call) => ExprPrintable(v, call, braces, k);
    case Do(block) => LoopBodyPrintable(v, block, braces, k);
    case While(condition, block) =>
      LoopBodyPrintable(v, block, braces, k);
      WholePrintable(v, Word(KwWhile), condition, braces, EmitLoopBody(block, k));
    case Repeat(block, condition) =>
      WholePrintable(v, Word(KwUntil), condition, braces, k);
      BlockPrintable(v, block, braces, Tok(Word(KwUntil), EmitExpr(condition, k)));
      Operand(Word(KwRepeat), braces, EmitBlock(block, Tok(Word(KwUntil), EmitExpr(condition, k))));
    case If(condition, block, arms) =>
      StmtArmsPrintable(v, arms, braces, k);
      BlockPrintable(v, block, braces, EmitStmtArms(arms, k));
      ThenPrintable(v, condition, KwIf, braces, EmitBlock(block, EmitStmtArms(arms, k)));
    case NumericFor(_, _, _, _, _) => NumericForPrintable(v, s, braces, k);
    case GenericFor(names, exprs, block) =>
      LoopBodyPrintable(v, block, braces, k);
      ListBehind(v, Word(KwIn), exprs, braces, EmitLoopBody(block, k));
      NamesPrintable(names, Comma, braces, Tok(Word(KwIn), EmitExprs(exprs, EmitLoopBody(block, k))));
      Operand(Word(KwFor), braces, EmitNames(names, Comma, Tok(Word(KwIn), EmitExprs(exprs, EmitLoopBody(block, k)))));
    case FunctionDecl(path, selector, body) =>
      BodyPrintable(v, body, KwFunction, braces, k);
      PathPrintable(path, selector, braces, EmitBody(body, k));
    case LocalFunction(name, body) =>
      BodyPrintable(v, body, KwFunction, braces, k);
      BeforeName(Word(KwFunction), name, braces, EmitBody(body, k));
      Operand(Word(KwLocal), braces, Tok(Word(KwFunction), Tok(Identifier(name), EmitBody(body, k))));
    case Local(bindings, values) => LocalPrintable(v, bindings, values, braces, k);
    case Empty => Operand(Sign(Semicolon), braces, k);
    case Goto(name) => BeforeName(Word(KwGoto), name, braces, k);
    case Label(name) =>
      Operand(Sign(DoubleColon), braces, k);
      BeforeName(Sign(DoubleColon), name, braces, Tok(Sign(DoubleColon), k));
    case Break => Operand(Word(KwBreak), braces, k);
    case Compound(target, op, value) =>
      CompoundNeutral(op);
      WholePrintable(v, CompoundToken(op), value, braces, k);
      ExprPrintable(v, target, braces, Tok(CompoundToken(op), EmitExpr(value, k)));
  }

  lemma CompoundNeutral(op: CompoundOp)
    ensures Neutral(CompoundToken(op)) && CompoundToken(op) != Sign(Dot) && CompoundToken(op) != Sign(Colon)
  {
  }

  /** A token and a list of expressions behind it. */
  lemma {:induction false} ListBehind(v: Version, t: Token, es: Exprs, braces: seq<nat>, k: Tokens)
    requires es.MoreExprs? && CanonicalExprs(v, false, es) && Printable(braces, k)
    requires Neutral(t) && t != Sign(Dot) && t != Sign(Colon)
    ensures Printable(braces, Tok(t, EmitExprs(es, k)))
    decreases es, 1
  {
    hide Printable, CanonicalExprs, EmitExprs, StartsExpr, StartsPlain;
    ExprsPrintable(v, es, braces, k);
    ExprStartsPlain(EmitExprs(es, k).head);
    Before(t, braces, EmitExprs(es, k));
  }

  lemma {:induction false} LoopBodyPrintable(v: Version, block: Block, braces: seq<nat>, k: Tokens)
    requires CanonicalBlock(v, false, block) && Printable(braces, k)
    ensures Printable(braces, EmitLoopBody(block, k))
    decreases block, 1
  {
    hide Printable, CanonicalBlock, EmitBlock;
    Operand(Word(KwEnd), braces, k);
    BlockPrintable(v, block, braces, Tok(Word(KwEnd), k));
    Operand(Word(KwDo), braces, EmitBlock(block, Tok(Word(KwEnd), k)));
  }

  /** `if` or `elseif`, its condition and `then`. */
  lemma {:induction false} ThenPrintable(v: Version, condition: Expr, w: Keyword, braces: seq<nat>, k: Tokens)
    requires Canonical(v, false, condition) && Printable(braces, k)
    ensures Printable(braces, Tok(Word(w), EmitExpr(condition, Tok(Word(KwThen), k))))
    decreases condition, 2
  {
    hide Printable, Canonical, EmitExpr;
    Operand(Word(KwThen), braces, k);
    WholePrintable(v, Word(w), condition, braces, Tok(Word(KwThen), k));
  }

  lemma {:induction false} NumericForPrintable(v: Version, s: Stmt, braces: seq<nat>, k: Tokens)
    requires s.NumericFor? && CanonicalStmt(v, false, s) && Printable(braces, k)
    ensures Printable(braces, EmitStmt(s, k))
    decreases s, 0
  {
    hide Printable, Canonical, CanonicalBlock, EmitExpr, EmitLoopBody;
    var body := EmitLoopBody(s.block, k);
    LoopBodyPrintable(v, s.block, braces, k);
    var after := EmitStep(s.step, body);
    StepPrintable(v, s.step, braces, body);
    var limit := Tok(Sign(Comma), EmitExpr(s.limit, after));
    WholePrintable(v, Sign(Comma), s.limit, braces, after);
    WholePrintable(v, Sign(Equal), s.start, braces, limit);
    BeforeName(Word(KwFor), s.name, braces, Tok(Sign(Equal), EmitExpr(s.start, limit)));
  }

  lemma {:induction false} StepPrintable(v: Version, step: Option<Expr>, braces: seq<nat>, k: Tokens)
    requires CanonicalStep(v, false, step) && Printable(braces, k) && k.Tok?
    ensures Printable(braces, EmitStep(step, k))
    decreases step
  {
    hide Printable, Canonical, EmitExpr;
    if step.Some? {
      WholePrintable(v, Sign(Comma), step.value, braces, k);
    }
  }

  lemma PathPrintable(path: Names, selector: Option<string>, braces: seq<nat>, k: Tokens)
    requires path.MoreNames? && Printable(braces, k) && AtSign(k, LeftParen)
    ensures Printable(braces, Tok(Word(KwFunction), EmitNames(path, Dot, EmitMethod(selector, k))))
  {
    hide Printable, EmitNames;
    SelectorPrintable(selector, braces, k);
    PathNames(path, braces, EmitMethod(selector, k));
    Operand(Word(KwFunction), braces, EmitNames(path, Dot, EmitMethod(selector, k)));
  }

  /** A dotted path may be followed by anything. */
  lemma {:induction false} PathNames(path: Names, braces: seq<nat>, k: Tokens)
    requires Printable(braces, k)
    ensures Printable(braces, EmitNames(path, Dot, k))
    decreases path
  {
    hide Printable;
    if path.MoreNames? {
      if path.tail.NoNames? {
        Operand(Identifier(path.head), braces, k);
      } else {
        PathNames(path.tail, braces, k);
        SeparatorBefore(Dot, path.tail, braces, k);
        Operand(Identifier(path.head), braces, Tok(Sign(Dot), EmitNames(path.tail, Dot, k)));
      }
    }
  }

  lemma {:induction false} LocalPrintable(v: Version, bindings: Bindings, values: Exprs, braces: seq<nat>, k: Tokens)
    requires CanonicalExprs(v, false, values) && Printable(braces, k)
    ensures Printable(braces, EmitStmt(Local(bindings, values), k))
    decreases values, 2
  {
    hide Printable, CanonicalExprs, EmitExprs, EmitBindings;
    var rest := if values.NoExprs? then k else Tok(Sign(Equal), EmitExprs(values, k));
    if values.MoreExprs? {
      ListBehind(v, Sign(Equal), values, braces, k);
    }
    BindingsPrintable(bindings, braces, rest);
    Operand(Word(KwLocal), braces, EmitBindings(bindings, rest));
  }

  lemma {:induction false} BindingsPrintable(bindings: Bindings, braces: seq<nat>, k: Tokens)
    requires Printable(braces, k)
    ensures Printable(braces, EmitBindings(bindings, k))
    decreases bindings
  {
    hide Printable, EmitBinding;
    if bindings.MoreBindings? {
      if bindings.tail.NoBindings? {
        BindingPrintable(bindings.head, braces, k);
      } else {
        BindingsPrintable(bindings.tail, braces, k);
        CommaBefore(bindings.tail, braces, k);
        BindingPrintable(bindings.head, braces, Tok(Sign(Comma), EmitBindings(bindings.tail, k)));
      }
    }
  }

  lemma CommaBefore(bindings: Bindings, braces: seq<nat>, k: Tokens)
    requires bindings.MoreBindings? && Printable(braces, EmitBindings(bindings, k))
    ensures Printable(braces, Tok(Sign(Comma), EmitBindings(bindings, k)))
  {
    hide Printable;
    Before(Sign(Comma), braces, EmitBindings(bindings, k));
  }

  lemma BindingPrintable(b: Binding, braces: seq<nat>, k: Tokens)
    requires Printable(braces, k)
    ensures Printable(braces, EmitBinding(b, k))
  {
    hide Printable;
    if b.attribute.Some? {
      Operand(Sign(Greater), braces, k);
      BeforeName(Sign(Less), b.attribute.value, braces, Tok(Sign(Greater), k));
      Operand(Identifier(b.name), braces, Tok(Sign(Less), Tok(Identifier(b.attribute.value), Tok(Sign(Greater), k))));
    } else {
      Operand(Identifier(b.name), braces, k);
    }
  }

  lemma {:induction false} StmtArmsPrintable(v: Version, arms: StmtArms, braces: seq<nat>, k: Tokens)
    requires CanonicalStmtArms(v, false, arms) && Printable(braces, k)
    ensures Printable(braces, EmitStmtArms(arms, k))
    decreases arms
  {
    hide Printable, Canonical, CanonicalBlock, EmitBlock, EmitExpr;
    Operand(Word(KwEnd), braces, k);
    match arms
    case EndIf =>
    case Else(block) =>
      BlockPrintable(v, block, braces, Tok(Word(KwEnd), k));
      Operand(Word(KwElse), braces, EmitBlock(block, Tok(Word(KwEnd), k)));
    case ElseIf(condition, block, rest) =>
      StmtArmsPrintable(v, rest, braces, k);
      BlockPrintable(v, block, braces, EmitStmtArms(rest, k));
      ThenPrintable(v, condition, KwElseIf, braces, EmitBlock(block, EmitStmtArms(rest, k)));
  }
}
