/** The compact printer (`compact.rs`): it appends pieces to its output and remembers the class of the
    last one. What it writes is the rendering of the emitted tokens. */
module CompactPrinting {
  import opened Wrappers
  import opened LuaSyntax
  import opened Emission
  import opened Scanner
  import opened Spacing

  /** Every token has a spelling: names and literals are not empty. */
  predicate Spelled(ts: Tokens)
    decreases ts
  {
    ts.Tok? ==> Spell(ts.head) != "" && Spelled(ts.tail)
  }

  lemma RenderToken(prev: Option<Token>, t: Token, k: Tokens)
    ensures Render(prev, Tok(t, k)) == Gap(prev, t) + Spell(t) + Render(Some(t), k)
  {
  }

  class CompactPrinter {
    var output: string
    var prev: PrevClass
    /** The token behind `prev`; none at the start, and after the space a hole can start with. */
    ghost var last: Option<Token>

    ghost predicate Valid()
      reads this
    {
      match last
      case None => prev == Nothing || prev == Other
      case Some(t) => prev == ClassOf(t)
    }

    /** The output once the tokens `k` are written. */
    ghost function Pending(k: Tokens): string
      reads this
    {
      output + Render(last, k)
    }

    ghost predicate InHole()
      reads this
    {
      last.Some? && OpensHole(last.value)
    }

    /** `k` is left to write, on the way to the text `whole`. */
    ghost predicate Left(k: Tokens, whole: string)
      reads this
    {
      Valid() && !InHole() && Spelled(k) && Pending(k) == whole
    }

    /** The same directly behind the opener of a hole, where no `{` may come next. */
    ghost predicate LeftInHole(k: Tokens, whole: string)
      reads this
    {
      Valid() && InHole() && Spelled(k) && Pending(k) == whole && (k.Tok? ==> k.head != Sign(LeftBrace))
    }

    ghost predicate Start(k: Tokens, whole: string)
      reads this
    {
      Left(k, whole) || LeftInHole(k, whole)
    }

    constructor ()
      ensures Valid() && last == None && output == ""
    {
      output := "";
      prev := Nothing;
      last := None;
    }

    method EmitPiece(text: string, wordlike: bool, class_: PrevClass)
      modifies this`output, this`prev
      ensures text == "" ==> output == old(output) && prev == old(prev)
      ensures text != "" ==>
                && output == old(output) + (if NeedsSpace(old(prev), text[0], wordlike) then " " else "") + text
                && prev == class_
    {
      if text == "" {
        return;
      }
      if NeedsSpace(prev, text[0], wordlike) {
        output := output + " ";
      }
      output := output + text;
      prev := class_;
    }

    /** A token that is not part of an interpolated string. */
    method EmitToken(t: Token, ghost k: Tokens, ghost whole: string)
      requires Start(Tok(t, k), whole) && !OpensHole(t)
      modifies this
      ensures Left(k, whole)
    {
      hide Render, Spell, ClassOf;
      RenderToken(last, t, k);
      EmitPiece(Spell(t), Wordlike(t), ClassOf(t));
      last := Some(t);
    }

    method EmitSign(s: Symbol, ghost k: Tokens, ghost whole: string)
      requires Start(Tok(Sign(s), k), whole)
      modifies this
      ensures Left(k, whole)
    {
      hide Start, Left;
      EmitToken(Sign(s), k, whole);
    }

    method EmitWord(w: Keyword, ghost k: Tokens, ghost whole: string)
      requires Start(Tok(Word(w), k), whole)
      modifies this
      ensures Left(k, whole)
    {
      hide Start, Left;
      EmitToken(Word(w), k, whole);
    }

    // ----- types -----

    method EmitAnnotation(t: Type, ghost k: Tokens, ghost whole: string)
      requires Left(EmitType(t, k), whole)
      modifies this
      ensures Left(k, whole)
      decreases t
    {
      hide Left;
      match t
      case TypeName(name) => EmitToken(Identifier(name), k, whole);
      case Generic(name, args) =>
        EmitToken(Identifier(name), Tok(Sign(Less), EmitTypes(args, Sign(Comma), Tok(Sign(Greater), k))), whole);
        EmitSign(Less, EmitTypes(args, Sign(Comma), Tok(Sign(Greater), k)), whole);
        EmitAnnotations(args, Comma, Tok(Sign(Greater), k), whole);
        EmitSign(Greater, k, whole);
      case Optional(inner) =>
        EmitAnnotation(inner, Tok(Sign(Question), k), whole);
        EmitSign(Question, k, whole);
      case Union(types) => EmitAnnotations(types, Pipe, k, whole);
      case Intersection(types) => EmitAnnotations(types, Ampersand, k, whole);
      case ParenType(inner) =>
        EmitSign(LeftParen, EmitType(inner, Tok(Sign(RightParen), k)), whole);
        EmitAnnotation(inner, Tok(Sign(RightParen), k), whole);
        EmitSign(RightParen, k, whole);
    }

    method EmitAnnotations(types: Types, separator: Symbol, ghost k: Tokens, ghost whole: string)
      requires Left(EmitTypes(types, Sign(separator), k), whole)
      modifies this
      ensures Left(k, whole)
      decreases types
    {
      hide Left;
      var rest := types;
      while rest.MoreTypes?
        invariant Left(EmitTypes(rest, Sign(separator), k), whole)
        invariant rest == types || rest < types
        decreases rest
      {
        if rest.tail.MoreTypes? {
          EmitAnnotation(rest.head, Tok(Sign(separator), EmitTypes(rest.tail, Sign(separator), k)), whole);
          EmitSign(separator, EmitTypes(rest.tail, Sign(separator), k), whole);
        } else {
          EmitAnnotation(rest.head, k, whole);
        }
        rest := rest.tail;
      }
    }

    // ----- expressions -----

    method EmitExpression(e: Expr, ghost k: Tokens, ghost whole: string)
      requires Start(EmitExpr(e, k), whole)
      modifies this
      ensures Left(k, whole)
      decreases e, 0
    {
      hide Left, LeftInHole;
      match e
      case Nil => EmitWord(KwNil, k, whole);
      case False => EmitWord(KwFalse, k, whole);
      case True => EmitWord(KwTrue, k, whole);
      case VarArg => EmitSign(DotDotDot, k, whole);
      case Number(text) => EmitToken(Numeral(text), k, whole);
      case StringLit(text) => EmitToken(Quoted(text), k, whole);
      case FunctionDef(body) =>
        EmitWord(KwFunction, EmitBody(body, k), whole);
        EmitFunctionBody(body, k, whole);
      case Name(name) => EmitToken(Identifier(name), k, whole);
      case Index(prefix, index) =>
        var after := EmitExpr(index, Tok(Sign(RightBracket), k));
        EmitExpression(prefix, Tok(Sign(LeftBracket), after), whole);
        EmitSign(LeftBracket, after, whole);
        EmitExpression(index, Tok(Sign(RightBracket), k), whole);
        EmitSign(RightBracket, k, whole);
      case FieldAccess(prefix, name) =>
        EmitExpression(prefix, Tok(Sign(Dot), Tok(Identifier(name), k)), whole);
        EmitSign(Dot, Tok(Identifier(name), k), whole);
        EmitToken(Identifier(name), k, whole);
      case Call(callee, selector, args) =>
        EmitExpression(callee, EmitMethod(selector, EmitArgs(args, k)), whole);
        EmitSelector(selector, EmitArgs(args, k), whole);
        EmitArguments(args, k, whole);
      case Paren(inner) =>
        EmitSign(LeftParen, EmitExpr(inner, Tok(Sign(RightParen), k)), whole);
        EmitExpression(inner, Tok(Sign(RightParen), k), whole);
        EmitSign(RightParen, k, whole);
      case Table(fields) => EmitTableConstructor(fields, k, whole);
      case Binary(left, op, right) =>
        EmitExpression(left, Tok(BinToken(op), EmitExpr(right, k)), whole);
        EmitToken(BinToken(op), EmitExpr(right, k), whole);
        EmitExpression(right, k, whole);
      case Unary(op, operand) =>
        EmitToken(UnToken(op), EmitExpr(operand, k), whole);
        EmitExpression(operand, k, whole);
      case IfExpr(condition, thenExpr, arms) =>
        var after := EmitExpr(thenExpr, EmitArms(arms, k));
        EmitWord(KwIf, EmitExpr(condition, Tok(Word(KwThen), after)), whole);
        EmitExpression(condition, Tok(Word(KwThen), after), whole);
        EmitWord(KwThen, after, whole);
        EmitExpression(thenExpr, EmitArms(arms, k), whole);
        EmitElseArms(arms, k, whole);
      case PlainInterp(text) => EmitPlainInterp(text, k, whole);
      case Interp(text, holes) => EmitInterpolatedString(text, holes, k, whole);
      case Cast(expr, annotation) =>
        EmitExpression(expr, Tok(Sign(DoubleColon), EmitType(annotation, k)), whole);
        EmitSign(DoubleColon, EmitType(annotation, k), whole);
        EmitAnnotation(annotation, k, whole);
    }

    method EmitSelector(selector: Option<string>, ghost k: Tokens, ghost whole: string)
      requires Left(EmitMethod(selector, k), whole)
      modifies this
      ensures Left(k, whole)
    {
      hide Left;
      if selector.Some? {
        EmitSign(Colon, Tok(Identifier(selector.value), k), whole);
        EmitToken(Identifier(selector.value), k, whole);
      }
    }

    method EmitArguments(args: Args, ghost k: Tokens, ghost whole: string)
      requires Left(EmitArgs(args, k), whole)
      modifies this
      ensures Left(k, whole)
      decreases args
    {
      hide Left;
      match args
      case ParenArgs(exprs) =>
        EmitSign(LeftParen, EmitExprs(exprs, Tok(Sign(RightParen), k)), whole);
        EmitExpressions(exprs, Tok(Sign(RightParen), k), whole);
        EmitSign(RightParen, k, whole);
      case TableArg(fields) => EmitTableConstructor(fields, k, whole);
      case StringArg(text) => EmitToken(Quoted(text), k, whole);
    }

    method EmitExpressions(es: Exprs, ghost k: Tokens, ghost whole: string)
      requires Left(EmitExprs(es, k), whole)
      modifies this
      ensures Left(k, whole)
      decreases es
    {
      hide Left;
      var rest := es;
      while rest.MoreExprs?
        invariant Left(EmitExprs(rest, k), whole)
        invariant rest == es || rest < es
        decreases rest
      {
        if rest.tail.MoreExprs? {
          EmitExpression(rest.head, Tok(Sign(Comma), EmitExprs(rest.tail, k)), whole);
          EmitSign(Comma, EmitExprs(rest.tail, k), whole);
        } else {
          EmitExpression(rest.head, k, whole);
        }
        rest := rest.tail;
      }
    }

    method EmitTableConstructor(fields: Fields, ghost k: Tokens, ghost whole: string)
      requires Start(EmitTable(fields, k), whole)
      modifies this
      ensures Left(k, whole)
      decreases fields
    {
      hide Left, LeftInHole;
      ghost var close := Tok(Sign(RightBrace), k);
      EmitSign(LeftBrace, EmitFields(fields, close), whole);
      var rest := fields;
      while rest.MoreFields?
        invariant Left(EmitFields(rest, close), whole)
        invariant rest == fields || rest < fields
        decreases rest
      {
        if rest.tail.MoreFields? {
          EmitTableField(rest.head, Tok(Sign(Comma), EmitFields(rest.tail, close)), whole);
          EmitSign(Comma, EmitFields(rest.tail, close), whole);
        } else {
          EmitTableField(rest.head, close, whole);
        }
        rest := rest.tail;
      }
      EmitSign(RightBrace, k, whole);
    }

    method EmitTableField(f: Field, ghost k: Tokens, ghost whole: string)
      requires Left(EmitField(f, k), whole)
      modifies this
      ensures Left(k, whole)
      decreases f
    {
      hide Left;
      match f
      case Bracketed(key, value) =>
        ghost var after := Tok(Sign(Equal), EmitExpr(value, k));
        EmitSign(LeftBracket, EmitExpr(key, Tok(Sign(RightBracket), after)), whole);
        EmitExpression(key, Tok(Sign(RightBracket), after), whole);
        EmitSign(RightBracket, after, whole);
        EmitSign(Equal, EmitExpr(value, k), whole);
        EmitExpression(value, k, whole);
      case Named(name, value) =>
        EmitToken(Identifier(name), Tok(Sign(Equal), EmitExpr(value, k)), whole);
        EmitSign(Equal, EmitExpr(value, k), whole);
        EmitExpression(value, k, whole);
      case Positional(value) => EmitExpression(value, k, whole);
    }

    method EmitElseArms(arms: ExprArms, ghost k: Tokens, ghost whole: string)
      requires Left(EmitArms(arms, k), whole)
      modifies this
      ensures Left(k, whole)
      decreases arms
    {
      hide Left;
      var rest := arms;
      while rest.ElseIfExpr?
        invariant Left(EmitArms(rest, k), whole)
        invariant rest == arms || rest < arms
        decreases rest
      {
        ghost var after := EmitExpr(rest.expr, EmitArms(rest.rest, k));
        EmitWord(KwElseIf, EmitExpr(rest.condition, Tok(Word(KwThen), after)), whole);
        EmitExpression(rest.condition, Tok(Word(KwThen), after), whole);
        EmitWord(KwThen, after, whole);
        EmitExpression(rest.expr, EmitArms(rest.rest, k), whole);
        rest := rest.rest;
      }
      EmitWord(KwElse, EmitExpr(rest.expr, k), whole);
      EmitExpression(rest.expr, k, whole);
    }

    // ----- interpolated strings, written without separator decisions -----

    /** `text`, which spells `t`, written raw. */
    method PutRaw(text: string, ghost t: Token, ghost k: Tokens, ghost whole: string)
      requires Start(Tok(t, k), whole) && text == Spell(t) && ClassOf(t) == Other
      requires !NeedsSpace(prev, CharAt(text, 0), false) && !Wordlike(t) && t != Sign(LeftBrace)
      modifies this
      ensures last == Some(t) && Valid() && Spelled(k) && Pending(k) == whole
    {
      hide Render, Spell, ClassOf;
      RenderToken(last, t, k);
      output := output + text;
      prev := Other;
      last := Some(t);
    }

    method EmitPlainInterp(text: string, ghost k: Tokens, ghost whole: string)
      requires Start(Tok(InterpWhole(text), k), whole)
      modifies this
      ensures Left(k, whole)
    {
      PutRaw("`" + text + "`", InterpWhole(text), k, whole);
    }

    /** Directly behind the opener of a hole, `k` left to write. */
    ghost predicate Opened(k: Tokens, whole: string)
      reads this
    {
      Valid() && InHole() && Spelled(k) && Pending(k) == whole
    }

    method PutBegin(text: string, ghost k: Tokens, ghost whole: string)
      requires Start(Tok(InterpBegin(text), k), whole)
      modifies this
      ensures Opened(k, whole)
    {
      PutRaw("`" + text + "{", InterpBegin(text), k, whole);
    }

    method PutMid(text: string, ghost k: Tokens, ghost whole: string)
      requires Left(Tok(InterpMid(text), k), whole)
      modifies this
      ensures Opened(k, whole)
    {
      PutRaw("}" + text + "{", InterpMid(text), k, whole);
    }

    method PutEnd(text: string, ghost k: Tokens, ghost whole: string)
      requires Left(Tok(InterpEnd(text), k), whole)
      modifies this
      ensures Left(k, whole)
    {
      PutRaw("}" + text + "`", InterpEnd(text), k, whole);
    }

    method EmitInterpolatedString(text: string, holes: Holes, ghost k: Tokens, ghost whole: string)
      requires Start(Tok(InterpBegin(text), EmitHoles(holes, k)), whole)
      modifies this
      ensures Left(k, whole)
      decreases holes, 1
    {
      hide Left, Opened;
      PutBegin(text, EmitHoles(holes, k), whole);
      var rest := holes;
      while rest.MoreHoles?
        invariant Opened(EmitHoles(rest, k), whole)
        invariant rest == holes || rest < holes
        decreases rest
      {
        EmitHole(rest.expr, Tok(InterpMid(rest.text), EmitHoles(rest.rest, k)), whole);
        PutMid(rest.text, EmitHoles(rest.rest, k), whole);
        rest := rest.rest;
      }
      EmitHole(rest.expr, Tok(InterpEnd(rest.text), k), whole);
      PutEnd(rest.text, k, whole);
    }

    /** The expression of a hole, a space before it where it starts with `{`. */
    method EmitHole(e: Expr, ghost k: Tokens, ghost whole: string)
      requires Opened(EmitExpr(e, k), whole)
      modifies this
      ensures Left(k, whole)
      decreases e, 1
    {
      hide Render, Spell;
      QueriesReadFirstToken(e, k);
      if ExprStartsWithBrace(e) {
        ghost var ts := EmitExpr(e, k);
        RenderToken(last, ts.head, ts.tail);
        RenderToken(None, ts.head, ts.tail);
        output := output + " ";
        last := None;
        prev := Other;
      }
      EmitExpression(e, k, whole);
    }

    // ----- statements -----

    method EmitNameList(names: Names, separator: Symbol, ghost k: Tokens, ghost whole: string)
      requires Left(EmitNames(names, separator, k), whole)
      modifies this
      ensures Left(k, whole)
      decreases names
    {
      hide Left;
      var rest := names;
      while rest.MoreNames?
        invariant Left(EmitNames(rest, separator, k), whole)
        decreases rest
      {
        if rest.tail.MoreNames? {
          EmitToken(Identifier(rest.head), Tok(Sign(separator), EmitNames(rest.tail, separator, k)), whole);
          EmitSign(separator, EmitNames(rest.tail, separator, k), whole);
        } else {
          EmitToken(Identifier(rest.head), k, whole);
        }
        rest := rest.tail;
      }
    }

    method EmitFunctionBody(body: Body, ghost k: Tokens, ghost whole: string)
      requires Left(EmitBody(body, k), whole)
      modifies this
      ensures Left(k, whole)
      decreases body
    {
      hide Left;
      ghost var after := EmitBlock(body.block, Tok(Word(KwEnd), k));
      ghost var close := Tok(Sign(RightParen), after);
      EmitSign(LeftParen, EmitParams(body.params, body.vararg, close), whole);
      if body.vararg {
        if body.params.MoreNames? {
          EmitNameList(body.params, Comma, Tok(Sign(Comma), Tok(Sign(DotDotDot), close)), whole);
          EmitSign(Comma, Tok(Sign(DotDotDot), close), whole);
        }
        EmitSign(DotDotDot, close, whole);
      } else {
        EmitNameList(body.params, Comma, close, whole);
      }
      EmitSign(RightParen, after, whole);
      EmitStatements(body.block, Tok(Word(KwEnd), k), whole);
      EmitWord(KwEnd, k, whole);
    }

    /** The statements of a block, a `;` before one that starts with `(` unless it is the first or a
        `;` has just been written. */
    method EmitStatements(b: Block, ghost k: Tokens, ghost whole: string)
      requires Left(EmitBlock(b, k), whole)
      modifies this
      ensures Left(k, whole)
      decreases b, 0
    {
      hide Left;
      var rest := b.stmts;
      var safe := true;
      while rest.MoreStmts?
        invariant Left(EmitStmts(rest, safe, EmitLast(b.last, k)), whole)
        invariant rest == b.stmts || rest < b.stmts
        decreases rest
      {
        ghost var after := EmitStmts(rest.tail, rest.head.Empty?, EmitLast(b.last, k));
        if !safe && StmtStartsWithParen(rest.head) {
          EmitSign(Semicolon, EmitStmt(rest.head, after), whole);
        }
        EmitStatement(rest.head, after, whole);
        safe := rest.head.Empty?;
        rest := rest.tail;
      }
      match b.last
      case NoLast =>
      case Return(exprs) =>
        EmitWord(KwReturn, EmitExprs(exprs, k), whole);
        EmitExpressions(exprs, k, whole);
      case BreakLast => EmitWord(KwBreak, k, whole);
      case Continue => EmitToken(Identifier("continue"), k, whole);
    }

    method EmitEndedBlock(b: Block, ghost k: Tokens, ghost whole: string)
      requires Left(EmitBlock(b, Tok(Word(KwEnd), k)), whole)
      modifies this
      ensures Left(k, whole)
      decreases b, 1
    {
      hide Left;
      EmitStatements(b, Tok(Word(KwEnd), k), whole);
      EmitWord(KwEnd, k, whole);
    }

    method EmitDo(block: Block, ghost k: Tokens, ghost whole: string)
      requires Left(EmitLoopBody(block, k), whole)
      modifies this
      ensures Left(k, whole)
      decreases block, 2
    {
      hide Left;
      EmitWord(KwDo, EmitBlock(block, Tok(Word(KwEnd), k)), whole);
      EmitEndedBlock(block, k, whole);
    }

    method EmitStatement(s: Stmt, ghost k: Tokens, ghost whole: string)
      requires Left(EmitStmt(s, k), whole)
      modifies this
      ensures Left(k, whole)
      decreases s, 1
    {
      hide Left;
      match s
      case Assign(targets, values) =>
        EmitExpressions(targets, Tok(Sign(Equal), EmitExprs(values, k)), whole);
        EmitSign(Equal, EmitExprs(values, k), whole);
        EmitExpressions(values, k, whole);
      case CallStmt(call) => EmitExpression(call, k, whole);
      case Do(block) => EmitDo(block, k, whole);
      case While(condition, block) =>
        EmitWord(KwWhile, EmitExpr(condition, EmitLoopBody(block, k)), whole);
        EmitExpression(condition, EmitLoopBody(block, k), whole);
        EmitDo(block, k, whole);
      case Repeat(block, condition) =>
        EmitWord(KwRepeat, EmitBlock(block, Tok(Word(KwUntil), EmitExpr(condition, k))), whole);
        EmitStatements(block, Tok(Word(KwUntil), EmitExpr(condition, k)), whole);
        EmitWord(KwUntil, EmitExpr(condition, k), whole);
        EmitExpression(condition, k, whole);
      case If(condition, block, arms) =>
        ghost var after := EmitBlock(block, EmitStmtArms(arms, k));
        EmitWord(KwIf, EmitExpr(condition, Tok(Word(KwThen), after)), whole);
        EmitExpression(condition, Tok(Word(KwThen), after), whole);
        EmitWord(KwThen, after, whole);
        EmitStatements(block, EmitStmtArms(arms, k), whole);
        EmitIfArms(arms, k, whole);
      case NumericFor(_, _, _, _, _) => EmitNumericFor(s, k, whole);
      case GenericFor(names, exprs, block) =>
        ghost var after := Tok(Word(KwIn), EmitExprs(exprs, EmitLoopBody(block, k)));
        EmitWord(KwFor, EmitNames(names, Comma, after), whole);
        EmitNameList(names, Comma, after, whole);
        EmitWord(KwIn, EmitExprs(exprs, EmitLoopBody(block, k)), whole);
        EmitExpressions(exprs, EmitLoopBody(block, k), whole);
        EmitDo(block, k, whole);
      case FunctionDecl(path, selector, body) =>
        ghost var after := EmitMethod(selector, EmitBody(body, k));
        EmitWord(KwFunction, EmitNames(path, Dot, after), whole);
        EmitNameList(path, Dot, after, whole);
        EmitSelector(selector, EmitBody(body, k), whole);
        EmitFunctionBody(body, k, whole);
      case LocalFunction(name, body) =>
        ghost var after := Tok(Identifier(name), EmitBody(body, k));
        EmitWord(KwLocal, Tok(Word(KwFunction), after), whole);
        EmitWord(KwFunction, after, whole);
        EmitToken(Identifier(name), EmitBody(body, k), whole);
        EmitFunctionBody(body, k, whole);
      case Local(bindings, values) =>
        ghost var after := if values.NoExprs? then k else Tok(Sign(Equal), EmitExprs(values, k));
        EmitWord(KwLocal, EmitBindings(bindings, after), whole);
        EmitBindingList(bindings, after, whole);
        if values.MoreExprs? {
          EmitSign(Equal, EmitExprs(values, k), whole);
          EmitExpressions(values, k, whole);
        }
      case Empty => EmitSign(Semicolon, k, whole);
      case Goto(name) =>
        EmitWord(KwGoto, Tok(Identifier(name), k), whole);
        EmitToken(Identifier(name), k, whole);
      case Label(name) =>
        EmitSign(DoubleColon, Tok(Identifier(name), Tok(Sign(DoubleColon), k)), whole);
        EmitToken(Identifier(name), Tok(Sign(DoubleColon), k), whole);
        EmitSign(DoubleColon, k, whole);
      case Break => EmitWord(KwBreak, k, whole);
      case Compound(target, op, value) =>
        EmitExpression(target, Tok(CompoundToken(op), EmitExpr(value, k)), whole);
        EmitToken(CompoundToken(op), EmitExpr(value, k), whole);
        EmitExpression(value, k, whole);
    }

    method EmitNumericFor(s: Stmt, ghost k: Tokens, ghost whole: string)
      requires s.NumericFor? && Left(EmitStmt(s, k), whole)
      modifies this
      ensures Left(k, whole)
      decreases s, 0
    {
      hide Left;
      ghost var body := EmitLoopBody(s.block, k);
      ghost var afterLimit := EmitStep(s.step, body);
      ghost var afterStart := Tok(Sign(Comma), EmitExpr(s.limit, afterLimit));
      EmitWord(KwFor, Tok(Identifier(s.name), Tok(Sign(Equal), EmitExpr(s.start, afterStart))), whole);
      EmitToken(Identifier(s.name), Tok(Sign(Equal), EmitExpr(s.start, afterStart)), whole);
      EmitSign(Equal, EmitExpr(s.start, afterStart), whole);
      EmitExpression(s.start, afterStart, whole);
      EmitSign(Comma, EmitExpr(s.limit, afterLimit), whole);
      EmitExpression(s.limit, afterLimit, whole);
      match s.step {
        case None =>
        case Some(step) =>
          EmitSign(Comma, EmitExpr(step, body), whole);
          EmitExpression(step, body, whole);
      }
      EmitDo(s.block, k, whole);
    }

    method EmitIfArms(arms: StmtArms, ghost k: Tokens, ghost whole: string)
      requires Left(EmitStmtArms(arms, k), whole)
      modifies this
      ensures Left(k, whole)
      decreases arms
    {
      hide Left;
      var rest := arms;
      while rest.ElseIf?
        invariant Left(EmitStmtArms(rest, k), whole)
        invariant rest == arms || rest < arms
        decreases rest
      {
        ghost var after := EmitBlock(rest.block, EmitStmtArms(rest.rest, k));
        EmitWord(KwElseIf, EmitExpr(rest.condition, Tok(Word(KwThen), after)), whole);
        EmitExpression(rest.condition, Tok(Word(KwThen), after), whole);
        EmitWord(KwThen, after, whole);
        EmitStatements(rest.block, EmitStmtArms(rest.rest, k), whole);
        rest := rest.rest;
      }
      if rest.Else? {
        EmitWord(KwElse, EmitBlock(rest.block, Tok(Word(KwEnd), k)), whole);
        EmitStatements(rest.block, Tok(Word(KwEnd), k), whole);
      }
      EmitWord(KwEnd, k, whole);
    }

    method EmitBindingList(bindings: Bindings, ghost k: Tokens, ghost whole: string)
      requires Left(EmitBindings(bindings, k), whole)
      modifies this
      ensures Left(k, whole)
      decreases bindings
    {
      hide Left;
      var rest := bindings;
      while rest.MoreBindings?
        invariant Left(EmitBindings(rest, k), whole)
        decreases rest
      {
        if rest.tail.MoreBindings? {
          EmitAttributedName(rest.head, Tok(Sign(Comma), EmitBindings(rest.tail, k)), whole);
          EmitSign(Comma, EmitBindings(rest.tail, k), whole);
        } else {
          EmitAttributedName(rest.head, k, whole);
        }
        rest := rest.tail;
      }
    }

    method EmitAttributedName(b: Binding, ghost k: Tokens, ghost whole: string)
      requires Left(EmitBinding(b, k), whole)
      modifies this
      ensures Left(k, whole)
    {
      hide Left;
      match b.attribute
      case None => EmitToken(Identifier(b.name), k, whole);
      case Some(name) =>
        EmitToken(Identifier(b.name), Tok(Sign(Less), Tok(Identifier(name), Tok(Sign(Greater), k))), whole);
        EmitSign(Less, Tok(Identifier(name), Tok(Sign(Greater), k)), whole);
        EmitToken(Identifier(name), Tok(Sign(Greater), k), whole);
        EmitSign(Greater, k, whole);
    }
  }

  /** Printing a program: the rendering of its tokens. */
  method Print(b: Block) returns (text: string)
    requires Spelled(EmitBlock(b, Eof))
    ensures text == Render(None, EmitBlock(b, Eof))
  {
    var printer := new CompactPrinter();
    printer.EmitStatements(b, Eof, Render(None, EmitBlock(b, Eof)));
    text := printer.output;
  }
}
