/** The parser (`luck_parser`): precedence climbing over expressions, the Luau type grammar and
    statements. It fails where the source records a syntax error. */
module Grammar {
  import opened Wrappers
  import opened LuaSyntax

  datatype Result<T> = Fail | Ok(value: T, rest: Tokens)

  function Size(ts: Tokens): nat {
    match ts
    case Eof => 0
    case Tok(_, tail) => 1 + Size(tail)
  }

  predicate AtToken(ts: Tokens, t: Token) { ts.Tok? && ts.head == t }

  predicate AtSign(ts: Tokens, s: Symbol): (r: bool)
    ensures r ==> ts.Tok? && Size(ts) == 1 + Size(ts.tail)
  {
    ts.Tok? && ts.head == Sign(s)
  }

  predicate AtWord(ts: Tokens, w: Keyword): (r: bool)
    ensures r ==> ts.Tok? && Size(ts) == 1 + Size(ts.tail)
  {
    ts.Tok? && ts.head == Word(w)
  }

  predicate AtName(ts: Tokens): (r: bool)
    ensures r ==> ts.Tok? && Size(ts) == 1 + Size(ts.tail)
  {
    ts.Tok? && ts.head.Identifier?
  }

  predicate NextSign(ts: Tokens, s: Symbol) { ts.Tok? && AtSign(ts.tail, s) }

  // ----- types -----

  /** The closing `>` of type arguments; a longer token that starts with `>` is split. */
  function CloseAngle(ts: Tokens): (r: Result<()>)
    ensures r.Ok? ==> Size(r.rest) <= Size(ts)
  {
    if AtSign(ts, Greater) then Ok((), ts.tail)
    else if AtSign(ts, ShiftRight) then Ok((), Tok(Sign(Greater), ts.tail))
    else if AtSign(ts, GreaterEqual) then Ok((), Tok(Sign(Equal), ts.tail))
    else Fail
  }

  function ParseType(ts: Tokens): (r: Result<Type>)
    ensures r.Ok? ==> Size(r.rest) < Size(ts)
    decreases Size(ts), 4
  {
    var first := ParseIntersection(ts);
    if first.Fail? then Fail
    else if !AtSign(first.rest, Pipe) then first
    else if first.value.Intersection? then Fail
    else
      var more := ParseUnionTail(first.rest);
      if more.Fail? then Fail else Ok(Union(MoreTypes(first.value, more.value)), more.rest)
  }

  function ParseUnionTail(ts: Tokens): (r: Result<Types>)
    ensures r.Ok? ==> Size(r.rest) <= Size(ts)
    decreases Size(ts), 0
  {
    if !AtSign(ts, Pipe) then Ok(NoTypes, ts)
    else
      var next := ParseIntersection(ts.tail);
      if next.Fail? || next.value.Intersection? then Fail
      else
        var more := ParseUnionTail(next.rest);
        if more.Fail? then Fail else Ok(MoreTypes(next.value, more.value), more.rest)
  }

  function ParseIntersection(ts: Tokens): (r: Result<Type>)
    ensures r.Ok? ==> Size(r.rest) < Size(ts)
    decreases Size(ts), 3
  {
    var first := ParsePostfixType(ts);
    if first.Fail? then Fail
    else if !AtSign(first.rest, Ampersand) then first
    else if first.value.Optional? then Fail
    else
      var more := ParseIntersectionTail(first.rest);
      if more.Fail? then Fail else Ok(Intersection(MoreTypes(first.value, more.value)), more.rest)
  }

  function ParseIntersectionTail(ts: Tokens): (r: Result<Types>)
    ensures r.Ok? ==> Size(r.rest) <= Size(ts)
    decreases Size(ts), 0
  {
    if !AtSign(ts, Ampersand) then Ok(NoTypes, ts)
    else
      var next := ParsePostfixType(ts.tail);
      if next.Fail? || next.value.Optional? then Fail
      else
        var more := ParseIntersectionTail(next.rest);
        if more.Fail? then Fail else Ok(MoreTypes(next.value, more.value), more.rest)
  }

  function ParsePostfixType(ts: Tokens): (r: Result<Type>)
    ensures r.Ok? ==> Size(r.rest) < Size(ts)
    decreases Size(ts), 2
  {
    var primary := ParsePrimaryType(ts);
    if primary.Fail? then Fail else ParseQuestions(primary.value, primary.rest)
  }

  function ParseQuestions(t: Type, ts: Tokens): (r: Result<Type>)
    ensures r.Ok? && Size(r.rest) <= Size(ts)
    decreases ts
  {
    if AtSign(ts, Question) then ParseQuestions(Optional(t), ts.tail) else Ok(t, ts)
  }

  /** Names, generic instances and parentheses; the other forms of the type grammar are not modelled. */
  function ParsePrimaryType(ts: Tokens): (r: Result<Type>)
    ensures r.Ok? ==> Size(r.rest) < Size(ts)
    decreases Size(ts), 1
  {
    if AtName(ts) then
      if ts.head.name == "typeof" && NextSign(ts, LeftParen) then Fail
      else if NextSign(ts, DotDotDot) || NextSign(ts, Dot) then Fail
      else if NextSign(ts, Less) then
        var args := ParseTypeArgs(ts.tail.tail);
        if args.Fail? then Fail else Ok(Generic(ts.head.name, args.value), args.rest)
      else Ok(TypeName(ts.head.name), ts.tail)
    else if AtSign(ts, LeftParen) then
      if AtSign(ts.tail, RightParen) || (AtName(ts.tail) && NextSign(ts.tail, Colon)) then Fail
      else
        var inner := ParseType(ts.tail);
        if inner.Fail? || !AtSign(inner.rest, RightParen) || AtSign(inner.rest.tail, Arrow) then Fail
        else Ok(ParenType(inner.value), inner.rest.tail)
    else Fail
  }

  function ParseTypeArgs(ts: Tokens): (r: Result<Types>)
    ensures r.Ok? ==> Size(r.rest) <= Size(ts)
    decreases Size(ts), 5
  {
    if AtSign(ts, Greater) || AtSign(ts, ShiftRight) || AtSign(ts, GreaterEqual) then
      Ok(NoTypes, CloseAngle(ts).rest)
    else
      var first := ParseType(ts);
      if first.Fail? then Fail
      else if AtSign(first.rest, Comma) then
        var more := ParseTypeArgs(first.rest.tail);
        if more.Fail? then Fail else Ok(MoreTypes(first.value, more.value), more.rest)
      else
        var close := CloseAngle(first.rest);
        if close.Fail? then Fail else Ok(MoreTypes(first.value, NoTypes), close.rest)
  }

  // ----- expressions -----

  /** The current token is a binary operator of `v` that binds at least as tightly as `min`. */
  predicate Binds(v: Version, min: nat, ts: Tokens) {
    ts.Tok? && TokenBinds(v, min, ts.head)
  }

  predicate TokenBinds(v: Version, min: nat, t: Token) {
    var op := BinOpOf(t);
    op.Some? && (Bitwise(op.value) ==> v.HasBitwise()) && min <= Precedence(op.value)
  }

  function ParseExpr(v: Version, min: nat, ts: Tokens): (r: Result<Expr>)
    ensures r.Ok? ==> Size(r.rest) < Size(ts)
    decreases Size(ts), 5
  {
    var left := ParsePrefix(v, ts);
    if left.Fail? then Fail else ParseOperators(v, left.value, min, left.rest)
  }

  /** The operator loop: the left side grows, only right operands recurse. */
  function ParseOperators(v: Version, left: Expr, min: nat, ts: Tokens): (r: Result<Expr>)
    ensures r.Ok? ==> Size(r.rest) <= Size(ts)
    decreases Size(ts), 0
  {
    if !Binds(v, min, ts) then Ok(left, ts)
    else
      var op := BinOpOf(ts.head).value;
      var right := ParseExpr(v, RightMinimum(op), ts.tail);
      if right.Fail? then Fail else ParseOperators(v, Binary(left, op, right.value), min, right.rest)
  }

  function ParsePrefix(v: Version, ts: Tokens): (r: Result<Expr>)
    ensures r.Ok? ==> Size(r.rest) < Size(ts)
    decreases Size(ts), 4
  {
    if ts.Tok? && UnOpOf(ts.head).Some? then
      var operand := ParseExpr(v, UNARY_PRECEDENCE, ts.tail);
      if operand.Fail? then Fail else Ok(Unary(UnOpOf(ts.head).value, operand.value), operand.rest)
    else
      var primary := ParsePrimary(v, ts);
      if primary.Fail? then Fail else ParseAssertion(v, primary.value, primary.rest)
  }

  /** At most one `:: Type` after a simple expression, in Luau. */
  function ParseAssertion(v: Version, e: Expr, ts: Tokens): (r: Result<Expr>)
    ensures r.Ok? ==> Size(r.rest) <= Size(ts)
    decreases Size(ts), 0
  {
    if v.Luau? && AtSign(ts, DoubleColon) then
      var annotation := ParseType(ts.tail);
      if annotation.Fail? then Fail else Ok(Cast(e, annotation.value), annotation.rest)
    else Ok(e, ts)
  }

  function ParsePrimary(v: Version, ts: Tokens): (r: Result<Expr>)
    ensures r.Ok? ==> Size(r.rest) < Size(ts)
    decreases Size(ts), 3
  {
    if ts.Eof? then Fail
    else
      match ts.head
      case Numeral(text) => Ok(Number(text), ts.tail)
      case Quoted(text) => Ok(StringLit(text), ts.tail)
      case Identifier(name) => ParseSuffixes(v, Name(name), ts.tail)
      case InterpWhole(text) => Ok(PlainInterp(text), ts.tail)
      case InterpBegin(text) =>
        var holes := ParseHoles(v, ts.tail);
        if holes.Fail? then Fail else Ok(Interp(text, holes.value), holes.rest)
      case Word(w) => ParseWordPrimary(v, w, ts)
      case Sign(DotDotDot) => Ok(VarArg, ts.tail)
      case Sign(LeftBrace) =>
        var fields := ParseFields(v, ts.tail);
        if fields.Fail? then Fail else Ok(Table(fields.value), fields.rest)
      case Sign(LeftParen) =>
        var inner := ParseExpr(v, 0, ts.tail);
        if inner.Fail? || !AtSign(inner.rest, RightParen) then Fail
        else ParseSuffixes(v, Paren(inner.value), inner.rest.tail)
      case _ => Fail
  }

  function ParseWordPrimary(v: Version, w: Keyword, ts: Tokens): (r: Result<Expr>)
    requires ts.Tok? && ts.head == Word(w)
    ensures r.Ok? ==> Size(r.rest) < Size(ts)
    decreases Size(ts), 2
  {
    match w
    case KwNil => Ok(Nil, ts.tail)
    case KwFalse => Ok(False, ts.tail)
    case KwTrue => Ok(True, ts.tail)
    case KwFunction =>
      var body := ParseBody(v, ts.tail);
      if body.Fail? then Fail else Ok(FunctionDef(body.value), body.rest)
    case KwIf => if v.Luau? then ParseIfExpr(v, ts.tail) else Fail
    case _ => Fail
  }

  /** `cond then expr arms`, after `if`. */
  function ParseIfExpr(v: Version, ts: Tokens): (r: Result<Expr>)
    ensures r.Ok? ==> Size(r.rest) < Size(ts)
    decreases Size(ts), 6
  {
    var condition := ParseExpr(v, 0, ts);
    if condition.Fail? || !AtWord(condition.rest, KwThen) then Fail
    else
      var thenExpr := ParseExpr(v, 0, condition.rest.tail);
      if thenExpr.Fail? then Fail
      else
        var arms := ParseArms(v, thenExpr.rest);
        if arms.Fail? then Fail else Ok(IfExpr(condition.value, thenExpr.value, arms.value), arms.rest)
  }

  function ParseArms(v: Version, ts: Tokens): (r: Result<ExprArms>)
    ensures r.Ok? ==> Size(r.rest) < Size(ts)
    decreases Size(ts), 0
  {
    if AtWord(ts, KwElseIf) then
      var condition := ParseExpr(v, 0, ts.tail);
      if condition.Fail? || !AtWord(condition.rest, KwThen) then Fail
      else
        var expr := ParseExpr(v, 0, condition.rest.tail);
        if expr.Fail? then Fail
        else
          var rest := ParseArms(v, expr.rest);
          if rest.Fail? then Fail else Ok(ElseIfExpr(condition.value, expr.value, rest.value), rest.rest)
    else if AtWord(ts, KwElse) then
      var expr := ParseExpr(v, 0, ts.tail);
      if expr.Fail? then Fail else Ok(ElseExpr(expr.value), expr.rest)
    else Fail
  }

  function ParseHoles(v: Version, ts: Tokens): (r: Result<Holes>)
    ensures r.Ok? ==> Size(r.rest) < Size(ts)
    decreases Size(ts), 6
  {
    var expr := ParseExpr(v, 0, ts);
    if expr.Fail? || expr.rest.Eof? then Fail
    else
      match expr.rest.head
      case InterpEnd(text) => Ok(LastHole(expr.value, text), expr.rest.tail)
      case InterpMid(text) =>
        var more := ParseHoles(v, expr.rest.tail);
        if more.Fail? then Fail else Ok(MoreHoles(expr.value, text, more.value), more.rest)
      case _ => Fail
  }

  predicate AtInstantiation(v: Version, ts: Tokens) { v.Luau? && AtSign(ts, Less) && NextSign(ts, Less) }

  predicate StartsArgs(t: Token) { t == Sign(LeftParen) || t == Sign(LeftBrace) || t.Quoted? }

  predicate StartsSuffix(t: Token) {
    t == Sign(Dot) || t == Sign(LeftBracket) || t == Sign(Colon) || StartsArgs(t)
  }

  function ParseSuffixes(v: Version, e: Expr, ts: Tokens): (r: Result<Expr>)
    ensures r.Ok? ==> Size(r.rest) <= Size(ts)
    decreases Size(ts), 1
  {
    if AtInstantiation(v, ts) then Fail
    else if AtSign(ts, Dot) then
      if !AtName(ts.tail) then Fail
      else ParseSuffixes(v, FieldAccess(e, ts.tail.head.name), ts.tail.tail)
    else if AtSign(ts, LeftBracket) then
      var index := ParseExpr(v, 0, ts.tail);
      if index.Fail? || !AtSign(index.rest, RightBracket) then Fail
      else ParseSuffixes(v, Index(e, index.value), index.rest.tail)
    else if AtSign(ts, Colon) then
      if !AtName(ts.tail) || AtInstantiation(v, ts.tail.tail) then Fail
      else
        var args := ParseArgs(v, ts.tail.tail);
        if args.Fail? then Fail
        else ParseSuffixes(v, Call(e, Some(ts.tail.head.name), args.value), args.rest)
    else if ts.Tok? && StartsArgs(ts.head) then
      var args := ParseArgs(v, ts);
      if args.Fail? then Fail else ParseSuffixes(v, Call(e, None, args.value), args.rest)
    else Ok(e, ts)
  }

  function ParseArgs(v: Version, ts: Tokens): (r: Result<Args>)
    ensures r.Ok? ==> Size(r.rest) < Size(ts)
    decreases Size(ts), 0
  {
    if AtSign(ts, LeftParen) then
      if AtSign(ts.tail, RightParen) then Ok(ParenArgs(NoExprs), ts.tail.tail)
      else
        var exprs := ParseExprs(v, ts.tail);
        if exprs.Fail? || !AtSign(exprs.rest, RightParen) then Fail
        else Ok(ParenArgs(exprs.value), exprs.rest.tail)
    else if AtSign(ts, LeftBrace) then
      var fields := ParseFields(v, ts.tail);
      if fields.Fail? then Fail else Ok(TableArg(fields.value), fields.rest)
    else if ts.Tok? && ts.head.Quoted? then Ok(StringArg(ts.head.text), ts.tail)
    else Fail
  }

  function ParseExprs(v: Version, ts: Tokens): (r: Result<Exprs>)
    ensures r.Ok? ==> Size(r.rest) < Size(ts) && r.value.MoreExprs?
    decreases Size(ts), 6
  {
    var first := ParseExpr(v, 0, ts);
    if first.Fail? then Fail
    else if !AtSign(first.rest, Comma) then Ok(MoreExprs(first.value, NoExprs), first.rest)
    else
      var more := ParseExprs(v, first.rest.tail);
      if more.Fail? then Fail else Ok(MoreExprs(first.value, more.value), more.rest)
  }

  /** The fields of a table and its `}`; separators are `,` or `;`, one may trail. */
  function ParseFields(v: Version, ts: Tokens): (r: Result<Fields>)
    ensures r.Ok? ==> Size(r.rest) < Size(ts)
    decreases Size(ts), 7
  {
    if AtSign(ts, RightBrace) then Ok(NoFields, ts.tail)
    else
      var field := ParseField(v, ts);
      if field.Fail? then Fail
      else if AtSign(field.rest, Comma) || AtSign(field.rest, Semicolon) then
        var more := ParseFields(v, field.rest.tail);
        if more.Fail? then Fail else Ok(MoreFields(field.value, more.value), more.rest)
      else if AtSign(field.rest, RightBrace) then Ok(MoreFields(field.value, NoFields), field.rest.tail)
      else Fail
  }

  function ParseField(v: Version, ts: Tokens): (r: Result<Field>)
    ensures r.Ok? ==> Size(r.rest) < Size(ts)
    decreases Size(ts), 6
  {
    if AtSign(ts, LeftBracket) then
      var key := ParseExpr(v, 0, ts.tail);
      if key.Fail? || !AtSign(key.rest, RightBracket) || !NextSign(key.rest, Equal) then Fail
      else
        var value := ParseExpr(v, 0, key.rest.tail.tail);
        if value.Fail? then Fail else Ok(Bracketed(key.value, value.value), value.rest)
    else if AtName(ts) && NextSign(ts, Equal) then
      var value := ParseExpr(v, 0, ts.tail.tail);
      if value.Fail? then Fail else Ok(Named(ts.head.name, value.value), value.rest)
    else
      var value := ParseExpr(v, 0, ts);
      if value.Fail? then Fail else Ok(Positional(value.value), value.rest)
  }

  // ----- statements -----

  predicate BlockEnd(ts: Tokens) {
    ts.Eof? || ts.head in [Word(KwEnd), Word(KwElse), Word(KwElseIf), Word(KwUntil)]
  }

  function ParseNames(separator: Symbol, ts: Tokens): (r: Result<Names>)
    ensures r.Ok? ==> Size(r.rest) < Size(ts) && r.value.MoreNames?
    decreases Size(ts)
  {
    if !AtName(ts) then Fail
    else if !AtSign(ts.tail, separator) then Ok(MoreNames(ts.head.name, NoNames), ts.tail)
    else
      var more := ParseNames(separator, ts.tail.tail);
      if more.Fail? then Fail else Ok(MoreNames(ts.head.name, more.value), more.rest)
  }

  /** Parameters up to `)`: names, then possibly `...`. */
  function ParseParams(ts: Tokens): (r: Result<(Names, bool)>)
    ensures r.Ok? ==> Size(r.rest) < Size(ts)
    decreases Size(ts)
  {
    if AtSign(ts, DotDotDot) then
      if AtSign(ts.tail, RightParen) then Ok((NoNames, true), ts.tail.tail) else Fail
    else if !AtName(ts) then Fail
    else if AtSign(ts.tail, RightParen) then Ok((MoreNames(ts.head.name, NoNames), false), ts.tail.tail)
    else if !AtSign(ts.tail, Comma) then Fail
    else
      var more := ParseParams(ts.tail.tail);
      if more.Fail? then Fail else Ok((MoreNames(ts.head.name, more.value.0), more.value.1), more.rest)
  }

  /** `(params) block end` */
  function ParseBody(v: Version, ts: Tokens): (r: Result<Body>)
    ensures r.Ok? ==> Size(r.rest) < Size(ts)
    decreases Size(ts), 0
  {
    if !AtSign(ts, LeftParen) then Fail
    else
      var params := if AtSign(ts.tail, RightParen) then Ok((NoNames, false), ts.tail.tail) else ParseParams(ts.tail);
      if params.Fail? then Fail
      else
        var block := ParseBlock(v, params.rest);
        if block.Fail? || !AtWord(block.rest, KwEnd) then Fail
        else Ok(Body(params.value.0, params.value.1, block.value), block.rest.tail)
  }

  function ParseBlock(v: Version, ts: Tokens): (r: Result<Block>)
    ensures r.Ok? ==> Size(r.rest) <= Size(ts)
    decreases Size(ts), 9
  {
    ParseStmts(v, false, ts)
  }

  function Prepend(s: Stmt, block: Block): Block { block.(stmts := MoreStmts(s, block.stmts)) }

  /** The statement loop. `separable` says that a `;` may follow, where `;` is no statement. */
  function ParseStmts(v: Version, separable: bool, ts: Tokens): (r: Result<Block>)
    ensures r.Ok? ==> Size(r.rest) <= Size(ts)
    decreases Size(ts), 8
  {
    if AtSign(ts, Semicolon) then
      if v.HasEmptyStatement() then
        var more := ParseStmts(v, separable, ts.tail);
        if more.Fail? then Fail else Ok(Prepend(Empty, more.value), more.rest)
      else if separable then ParseStmts(v, false, ts.tail)
      else Fail
    else if AtWord(ts, KwReturn) then ParseReturn(v, ts.tail)
    else if AtWord(ts, KwBreak) && v.BreakIsLast() then Ok(Block(NoStmts, BreakLast), SkipSemicolon(ts.tail))
    else if BlockEnd(ts) then Ok(Block(NoStmts, NoLast), ts)
    else if v.Luau? && AtToken(ts, Identifier("continue")) && (BlockEnd(ts.tail) || AtSign(ts.tail, Semicolon)) then
      Ok(Block(NoStmts, Continue), SkipSemicolon(ts.tail))
    else
      var stmt := ParseStmt(v, ts);
      if stmt.Fail? then Fail
      else
        var more := ParseStmts(v, true, stmt.rest);
        if more.Fail? then Fail else Ok(Prepend(stmt.value, more.value), more.rest)
  }

  function SkipSemicolon(ts: Tokens): (r: Tokens)
    ensures Size(r) <= Size(ts)
  {
    if AtSign(ts, Semicolon) then ts.tail else ts
  }

  function ParseReturn(v: Version, ts: Tokens): (r: Result<Block>)
    ensures r.Ok? ==> Size(r.rest) <= Size(ts)
    decreases Size(ts), 7
  {
    if BlockEnd(ts) || AtSign(ts, Semicolon) then Ok(Block(NoStmts, Return(NoExprs)), SkipSemicolon(ts))
    else
      var exprs := ParseExprs(v, ts);
      if exprs.Fail? then Fail else Ok(Block(NoStmts, Return(exprs.value)), SkipSemicolon(exprs.rest))
  }

  /** The words that start a declaration in Luau when the next token allows it; none is modelled. */
  predicate AtLuauDeclaration(v: Version, ts: Tokens) {
    v.Luau? && AtName(ts) && ts.head.name in ["type", "export", "const"]
    && (AtName(ts.tail) || AtWord(ts.tail, KwFunction) || (ts.head.name == "export" && AtWord(ts.tail, KwLocal)))
  }

  function ParseStmt(v: Version, ts: Tokens): (r: Result<Stmt>)
    ensures r.Ok? ==> Size(r.rest) < Size(ts)
    decreases Size(ts), 7
  {
    if ts.Eof? then Fail
    else
      match ts.head
      case Word(w) => ParseWordStmt(v, w, ts)
      case Sign(DoubleColon) =>
        if v.HasGoto() && AtName(ts.tail) && NextSign(ts.tail, DoubleColon)
        then Ok(Label(ts.tail.head.name), ts.tail.tail.tail)
        else Fail
      case Sign(LeftParen) => ParseSimpleStmt(v, ts)
      case Identifier(_) => if AtLuauDeclaration(v, ts) then Fail else ParseSimpleStmt(v, ts)
      case _ => Fail
  }

  function ParseWordStmt(v: Version, w: Keyword, ts: Tokens): (r: Result<Stmt>)
    requires ts.Tok? && ts.head == Word(w)
    ensures r.Ok? ==> Size(r.rest) < Size(ts)
    decreases Size(ts), 1
  {
    match w
    case KwDo =>
      var block := ParseEnded(v, ts.tail);
      if block.Fail? then Fail else Ok(Do(block.value), block.rest)
    case KwWhile =>
      var condition := ParseExpr(v, 0, ts.tail);
      if condition.Fail? then Fail
      else
        var block := ParseLoopBody(v, condition.rest);
        if block.Fail? then Fail else Ok(While(condition.value, block.value), block.rest)
    case KwRepeat =>
      var block := ParseBlock(v, ts.tail);
      if block.Fail? || !AtWord(block.rest, KwUntil) then Fail
      else
        var condition := ParseExpr(v, 0, block.rest.tail);
        if condition.Fail? then Fail else Ok(Repeat(block.value, condition.value), condition.rest)
    case KwIf =>
      var condition := ParseExpr(v, 0, ts.tail);
      if condition.Fail? || !AtWord(condition.rest, KwThen) then Fail
      else
        var block := ParseBlock(v, condition.rest.tail);
        if block.Fail? then Fail
        else
          var arms := ParseStmtArms(v, block.rest);
          if arms.Fail? then Fail else Ok(If(condition.value, block.value, arms.value), arms.rest)
    case KwFor =>
      if AtName(ts.tail) && NextSign(ts.tail, Equal)
      then ParseNumericFor(v, ts.tail.head.name, ts.tail.tail.tail)
      else ParseGenericFor(v, ts.tail)
    case KwFunction => ParseFunctionDecl(v, ts.tail)
    case KwLocal => ParseLocal(v, ts.tail)
    case KwBreak => if v.BreakIsLast() then Fail else Ok(Break, ts.tail)
    case KwGoto =>
      if v.HasGoto() && AtName(ts.tail) then Ok(Goto(ts.tail.head.name), ts.tail.tail) else Fail
    case _ => Fail
  }

  /** `block end` */
  function ParseEnded(v: Version, ts: Tokens): (r: Result<Block>)
    ensures r.Ok? ==> Size(r.rest) < Size(ts)
    decreases Size(ts), 10
  {
    var block := ParseBlock(v, ts);
    if block.Fail? || !AtWord(block.rest, KwEnd) then Fail else Ok(block.value, block.rest.tail)
  }

  /** `do block end` */
  function ParseLoopBody(v: Version, ts: Tokens): (r: Result<Block>)
    ensures r.Ok? ==> Size(r.rest) < Size(ts)
    decreases Size(ts), 0
  {
    if AtWord(ts, KwDo) then ParseEnded(v, ts.tail) else Fail
  }

  function ParseStmtArms(v: Version, ts: Tokens): (r: Result<StmtArms>)
    ensures r.Ok? ==> Size(r.rest) < Size(ts)
    decreases Size(ts), 0
  {
    if AtWord(ts, KwElseIf) then
      var condition := ParseExpr(v, 0, ts.tail);
      if condition.Fail? || !AtWord(condition.rest, KwThen) then Fail
      else
        var block := ParseBlock(v, condition.rest.tail);
        if block.Fail? then Fail
        else
          var rest := ParseStmtArms(v, block.rest);
          if rest.Fail? then Fail else Ok(ElseIf(condition.value, block.value, rest.value), rest.rest)
    else if AtWord(ts, KwElse) then
      var block := ParseEnded(v, ts.tail);
      if block.Fail? then Fail else Ok(Else(block.value), block.rest)
    else if AtWord(ts, KwEnd) then Ok(EndIf, ts.tail)
    else Fail
  }

  function ParseNumericFor(v: Version, name: string, ts: Tokens): (r: Result<Stmt>)
    ensures r.Ok? ==> Size(r.rest) < Size(ts)
    decreases Size(ts), 6
  {
    var start := ParseExpr(v, 0, ts);
    if start.Fail? || !AtSign(start.rest, Comma) then Fail
    else
      var limit := ParseExpr(v, 0, start.rest.tail);
      if limit.Fail? then Fail
      else
        var step := ParseStep(v, limit.rest);
        if step.Fail? then Fail
        else
          var block := ParseLoopBody(v, step.rest);
          if block.Fail? then Fail
          else Ok(NumericFor(name, start.value, limit.value, step.value, block.value), block.rest)
  }

  function ParseStep(v: Version, ts: Tokens): (r: Result<Option<Expr>>)
    ensures r.Ok? ==> Size(r.rest) <= Size(ts)
    decreases Size(ts), 0
  {
    if !AtSign(ts, Comma) then Ok(None, ts)
    else
      var step := ParseExpr(v, 0, ts.tail);
      if step.Fail? then Fail else Ok(Some(step.value), step.rest)
  }

  function ParseGenericFor(v: Version, ts: Tokens): (r: Result<Stmt>)
    ensures r.Ok? ==> Size(r.rest) < Size(ts)
    decreases Size(ts), 0
  {
    var names := ParseNames(Comma, ts);
    if names.Fail? || !AtWord(names.rest, KwIn) then Fail
    else
      var exprs := ParseExprs(v, names.rest.tail);
      if exprs.Fail? then Fail
      else
        var block := ParseLoopBody(v, exprs.rest);
        if block.Fail? then Fail else Ok(GenericFor(names.value, exprs.value, block.value), block.rest)
  }

  /** `:name` where present. */
  function ParseSelector(ts: Tokens): (r: Result<Option<string>>)
    ensures r.Ok? ==> Size(r.rest) <= Size(ts)
  {
    if !AtSign(ts, Colon) then Ok(None, ts)
    else if AtName(ts.tail) then Ok(Some(ts.tail.head.name), ts.tail.tail)
    else Fail
  }

  function ParseFunctionDecl(v: Version, ts: Tokens): (r: Result<Stmt>)
    ensures r.Ok? ==> Size(r.rest) < Size(ts)
    decreases Size(ts), 1
  {
    var path := ParseNames(Dot, ts);
    if path.Fail? then Fail
    else
      var selector := ParseSelector(path.rest);
      if selector.Fail? then Fail
      else
        var body := ParseBody(v, selector.rest);
        if body.Fail? then Fail else Ok(FunctionDecl(path.value, selector.value, body.value), body.rest)
  }

  function ParseLocal(v: Version, ts: Tokens): (r: Result<Stmt>)
    ensures r.Ok? ==> Size(r.rest) < Size(ts)
    decreases Size(ts), 1
  {
    if AtWord(ts, KwFunction) then
      if !AtName(ts.tail) then Fail
      else
        var body := ParseBody(v, ts.tail.tail);
        if body.Fail? then Fail else Ok(LocalFunction(ts.tail.head.name, body.value), body.rest)
    else
      var bindings := ParseBindings(v, ts);
      if bindings.Fail? || 1 < Closers(bindings.value) then Fail
      else if !AtSign(bindings.rest, Equal) then Ok(Local(bindings.value, NoExprs), bindings.rest)
      else
        var values := ParseExprs(v, bindings.rest.tail);
        if values.Fail? then Fail else Ok(Local(bindings.value, values.value), values.rest)
  }

  /** How many of the bindings are to be closed. */
  function Closers(bindings: Bindings): nat {
    match bindings
    case NoBindings => 0
    case MoreBindings(head, tail) => (if head.attribute == Some("close") then 1 else 0) + Closers(tail)
  }

  function ParseBindings(v: Version, ts: Tokens): (r: Result<Bindings>)
    ensures r.Ok? ==> Size(r.rest) < Size(ts) && r.value.MoreBindings?
    decreases Size(ts)
  {
    var first := ParseBinding(v, ts);
    if first.Fail? then Fail
    else if !AtSign(first.rest, Comma) then Ok(MoreBindings(first.value, NoBindings), first.rest)
    else
      var more := ParseBindings(v, first.rest.tail);
      if more.Fail? then Fail else Ok(MoreBindings(first.value, more.value), more.rest)
  }

  function ParseBinding(v: Version, ts: Tokens): (r: Result<Binding>)
    ensures r.Ok? ==> Size(r.rest) < Size(ts)
  {
    if !AtName(ts) then Fail
    else if v.HasAttributes() && AtSign(ts.tail, Less) then
      var attribute := ts.tail.tail;
      if AtName(attribute) && attribute.head.name in ["const", "close"] && NextSign(attribute, Greater)
      then Ok(Binding(ts.head.name, Some(attribute.head.name)), attribute.tail.tail)
      else Fail
    else Ok(Binding(ts.head.name, None), ts.tail)
  }

  predicate AllVars(es: Exprs) {
    match es
    case NoExprs => true
    case MoreExprs(head, tail) => IsVar(head) && AllVars(tail)
  }

  /** An assignment, a compound assignment or a call: told apart after the first expression. */
  function ParseSimpleStmt(v: Version, ts: Tokens): (r: Result<Stmt>)
    ensures r.Ok? ==> Size(r.rest) < Size(ts)
    decreases Size(ts), 6
  {
    var first := ParseExpr(v, 0, ts);
    if first.Fail? then Fail
    else if v.Luau? && first.rest.Tok? && CompoundOpOf(first.rest.head).Some? then
      var value := ParseExpr(v, 0, first.rest.tail);
      if value.Fail? || !IsVar(first.value) then Fail
      else Ok(Compound(first.value, CompoundOpOf(first.rest.head).value, value.value), value.rest)
    else if AtSign(first.rest, Comma) || AtSign(first.rest, Equal) then
      var more := ParseTargets(v, first.rest);
      if more.Fail? || !AtSign(more.rest, Equal) then Fail
      else
        var values := ParseExprs(v, more.rest.tail);
        var targets := MoreExprs(first.value, more.value);
        if values.Fail? || !AllVars(targets) then Fail else Ok(Assign(targets, values.value), values.rest)
    else if first.value.Call? then Ok(CallStmt(first.value), first.rest)
    else Fail
  }

  /** The further targets of an assignment. */
  function ParseTargets(v: Version, ts: Tokens): (r: Result<Exprs>)
    ensures r.Ok? ==> Size(r.rest) <= Size(ts)
    decreases Size(ts), 0
  {
    if !AtSign(ts, Comma) then Ok(NoExprs, ts)
    else
      var next := ParseExpr(v, 0, ts.tail);
      if next.Fail? then Fail
      else
        var more := ParseTargets(v, next.rest);
        if more.Fail? then Fail else Ok(MoreExprs(next.value, more.value), more.rest)
  }

  /** A whole program: a block and nothing after it. */
  function Parse(v: Version, ts: Tokens): Option<Block> {
    var block := ParseBlock(v, ts);
    if block.Ok? && block.rest.Eof? then Some(block.value) else None
  }
}
