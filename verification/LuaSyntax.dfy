/** Tokens, operators and syntax trees of the Lua family (`luck_token`, `luck_ast`). */
module LuaSyntax {
  import opened Wrappers

  datatype Version = Lua51 | Lua52 | Lua53 | Lua54 | Lua55 | Luau {
    predicate HasGoto() { Lua52? || Lua53? || Lua54? || Lua55? }

    predicate HasGlobal() { Lua55? }

    predicate HasFloorDiv() { !Lua51? && !Lua52? }

    predicate HasBitwise() { Lua53? || Lua54? || Lua55? }

    predicate HasAttributes() { Lua54? || Lua55? }

    predicate HasEmptyStatement() { Lua52? || Lua53? || Lua54? || Lua55? }

    predicate BreakIsLast() { Lua51? || Luau? }
  }

  // ----- tokens -----

  datatype Keyword =
    | KwAnd | KwBreak | KwDo | KwElse | KwElseIf | KwEnd | KwFalse | KwFor | KwFunction | KwGoto | KwGlobal
    | KwIf | KwIn | KwLocal | KwNil | KwNot | KwOr | KwRepeat | KwReturn | KwThen | KwTrue | KwUntil | KwWhile

  datatype Symbol =
    | Plus | Minus | Star | Slash | FloorDivide | Percent | Caret | Hash
    | Ampersand | Tilde | Pipe | ShiftLeft | ShiftRight
    | EqualEqual | TildeEqual | Less | LessEqual | Greater | GreaterEqual | Equal
    | LeftParen | RightParen | LeftBrace | RightBrace | LeftBracket | RightBracket
    | DoubleColon | Semicolon | Colon | Comma | Dot | DotDot | DotDotDot
    | PlusEqual | MinusEqual | StarEqual | SlashEqual | FloorDivideEqual | PercentEqual | CaretEqual | DotDotEqual
    | Arrow | At | Question

  /** `InterpWhole` is the pair of tokens the lexer makes of a backtick string without holes: an
      `InterpBegin` and, queued behind it with an overlapping span, an `InterpEnd`. */
  datatype Token =
    | Identifier(name: string)
    | Numeral(text: string)
    | Quoted(text: string)
    | Word(keyword: Keyword)
    | Sign(symbol: Symbol)
    | InterpWhole(text: string)
    | InterpBegin(text: string)
    | InterpMid(text: string)
    | InterpEnd(text: string)

  /** A token stream as the parser sees it: what is current, and what follows. */
  datatype Tokens = Eof | Tok(head: Token, tail: Tokens)

  // ----- operators -----

  datatype BinOp =
    | Add | Sub | Mul | Div | FloorDiv | Mod | Pow | Concat
    | Eq | Ne | Lt | Le | Gt | Ge | And | Or
    | BitAnd | BitOr | BitXor | Shl | Shr

  datatype UnOp = Not | Neg | Len | BitNot

  datatype CompoundOp = AddAssign | SubAssign | MulAssign | DivAssign | FloorDivAssign | ModAssign | PowAssign
    | ConcatAssign

  const UNARY_PRECEDENCE: nat := 11

  function Precedence(op: BinOp): nat {
    match op
    case Or => 1
    case And => 2
    case Lt | Gt | Le | Ge | Ne | Eq => 3
    case BitOr => 4
    case BitXor => 5
    case BitAnd => 6
    case Shl | Shr => 7
    case Concat => 8
    case Add | Sub => 9
    case Mul | Div | Mod | FloorDiv => 10
    case Pow => 12
  }

  predicate RightAssociative(op: BinOp) { op.Concat? || op.Pow? }

  predicate Bitwise(op: BinOp) { op.BitAnd? || op.BitOr? || op.BitXor? || op.Shl? || op.Shr? }

  /** The smallest precedence the right operand of `op` is read at. */
  function RightMinimum(op: BinOp): nat {
    if RightAssociative(op) then Precedence(op) else Precedence(op) + 1
  }

  function BinToken(op: BinOp): Token {
    match op
    case Add => Sign(Plus)
    case Sub => Sign(Minus)
    case Mul => Sign(Star)
    case Div => Sign(Slash)
    case FloorDiv => Sign(FloorDivide)
    case Mod => Sign(Percent)
    case Pow => Sign(Caret)
    case Concat => Sign(DotDot)
    case Eq => Sign(EqualEqual)
    case Ne => Sign(TildeEqual)
    case Lt => Sign(Less)
    case Le => Sign(LessEqual)
    case Gt => Sign(Greater)
    case Ge => Sign(GreaterEqual)
    case And => Word(KwAnd)
    case Or => Word(KwOr)
    case BitAnd => Sign(Ampersand)
    case BitOr => Sign(Pipe)
    case BitXor => Sign(Tilde)
    case Shl => Sign(ShiftLeft)
    case Shr => Sign(ShiftRight)
  }

  function BinOpOf(t: Token): (op: Option<BinOp>)
    ensures op.Some? ==> BinToken(op.value) == t
  {
    match t
    case Word(KwAnd) => Some(And)
    case Word(KwOr) => Some(Or)
    case Sign(s) =>
      (match s
       case Plus => Some(Add)
       case Minus => Some(Sub)
       case Star => Some(Mul)
       case Slash => Some(Div)
       case FloorDivide => Some(FloorDiv)
       case Percent => Some(Mod)
       case Caret => Some(Pow)
       case DotDot => Some(Concat)
       case EqualEqual => Some(Eq)
       case TildeEqual => Some(Ne)
       case Less => Some(Lt)
       case LessEqual => Some(Le)
       case Greater => Some(Gt)
       case GreaterEqual => Some(Ge)
       case Ampersand => Some(BitAnd)
       case Pipe => Some(BitOr)
       case Tilde => Some(BitXor)
       case ShiftLeft => Some(Shl)
       case ShiftRight => Some(Shr)
       case _ => None)
    case _ => None
  }

  lemma BinTokensDistinct(op: BinOp)
    ensures BinOpOf(BinToken(op)) == Some(op)
  {
  }

  lemma ClosersAreNoOperators()
    ensures BinOpOf(Sign(RightParen)).None? && BinOpOf(Sign(RightBracket)).None? && BinOpOf(Sign(RightBrace)).None?
    ensures BinOpOf(Sign(Comma)).None? && BinOpOf(Sign(Equal)).None? && BinOpOf(Sign(Semicolon)).None?
    ensures BinOpOf(Sign(DoubleColon)).None?
    ensures BinOpOf(Word(KwThen)).None? && BinOpOf(Word(KwElse)).None? && BinOpOf(Word(KwElseIf)).None?
    ensures BinOpOf(Word(KwDo)).None? && BinOpOf(Word(KwEnd)).None? && BinOpOf(Word(KwUntil)).None?
  {
  }

  function UnToken(op: UnOp): Token {
    match op
    case Not => Word(KwNot)
    case Neg => Sign(Minus)
    case Len => Sign(Hash)
    case BitNot => Sign(Tilde)
  }

  function UnOpOf(t: Token): (op: Option<UnOp>)
    ensures op.Some? ==> UnToken(op.value) == t
  {
    if t == Word(KwNot) then Some(Not)
    else if t == Sign(Minus) then Some(Neg)
    else if t == Sign(Hash) then Some(Len)
    else if t == Sign(Tilde) then Some(BitNot)
    else None
  }

  lemma UnTokensDistinct(op: UnOp)
    ensures UnOpOf(UnToken(op)) == Some(op)
  {
  }

  function CompoundToken(op: CompoundOp): Token {
    match op
    case AddAssign => Sign(PlusEqual)
    case SubAssign => Sign(MinusEqual)
    case MulAssign => Sign(StarEqual)
    case DivAssign => Sign(SlashEqual)
    case FloorDivAssign => Sign(FloorDivideEqual)
    case ModAssign => Sign(PercentEqual)
    case PowAssign => Sign(CaretEqual)
    case ConcatAssign => Sign(DotDotEqual)
  }

  function CompoundOpOf(t: Token): (op: Option<CompoundOp>)
    ensures op.Some? ==> CompoundToken(op.value) == t
  {
    match t
    case Sign(s) =>
      (match s
       case PlusEqual => Some(AddAssign)
       case MinusEqual => Some(SubAssign)
       case StarEqual => Some(MulAssign)
       case SlashEqual => Some(DivAssign)
       case FloorDivideEqual => Some(FloorDivAssign)
       case PercentEqual => Some(ModAssign)
       case CaretEqual => Some(PowAssign)
       case DotDotEqual => Some(ConcatAssign)
       case _ => None)
    case _ => None
  }

  lemma CompoundTokensDistinct(op: CompoundOp)
    ensures CompoundOpOf(CompoundToken(op)) == Some(op)
    ensures BinOpOf(CompoundToken(op)) == None
  {
  }

  // ----- types (the Luau cast operand) -----

  datatype Type =
    | TypeName(name: string)
    | Generic(name: string, args: Types)
    | Optional(inner: Type)
    | Union(types: Types)
    | Intersection(types: Types)
    | ParenType(inner: Type)

  datatype Types = NoTypes | MoreTypes(head: Type, tail: Types)

  // ----- expressions -----

  datatype Expr =
    | Nil | False | True | VarArg
    | Number(text: string)
    | StringLit(text: string)
    | FunctionDef(body: Body)
    | Name(name: string)
    | Index(prefix: Expr, index: Expr)
    | FieldAccess(prefix: Expr, name: string)
    | Call(callee: Expr, selector: Option<string>, args: Args)
    | Paren(inner: Expr)
    | Table(fields: Fields)
    | Binary(left: Expr, op: BinOp, right: Expr)
    | Unary(unop: UnOp, operand: Expr)
    | IfExpr(condition: Expr, thenExpr: Expr, arms: ExprArms)
    | PlainInterp(text: string)
    | Interp(text: string, holes: Holes)
    | Cast(expr: Expr, annotation: Type)

  datatype Exprs = NoExprs | MoreExprs(head: Expr, tail: Exprs)

  datatype Args = ParenArgs(exprs: Exprs) | TableArg(fields: Fields) | StringArg(text: string)

  datatype Field = Bracketed(key: Expr, value: Expr) | Named(name: string, value: Expr) | Positional(value: Expr)

  datatype Fields = NoFields | MoreFields(head: Field, tail: Fields)

  datatype ExprArms = ElseExpr(expr: Expr) | ElseIfExpr(condition: Expr, expr: Expr, rest: ExprArms)

  /** The holes of an interpolated string, each with the text that follows it. */
  datatype Holes = LastHole(expr: Expr, text: string) | MoreHoles(expr: Expr, text: string, rest: Holes)

  // ----- statements -----

  datatype Names = NoNames | MoreNames(head: string, tail: Names)

  datatype Body = Body(params: Names, vararg: bool, block: Block)

  datatype Block = Block(stmts: Stmts, last: Last)

  datatype Stmts = NoStmts | MoreStmts(head: Stmt, tail: Stmts)

  datatype Last = NoLast | Return(exprs: Exprs) | BreakLast | Continue

  datatype Binding = Binding(name: string, attribute: Option<string>)

  datatype Bindings = NoBindings | MoreBindings(head: Binding, tail: Bindings)

  datatype Stmt =
    | Assign(targets: Exprs, values: Exprs)
    | CallStmt(call: Expr)
    | Do(block: Block)
    | While(condition: Expr, block: Block)
    | Repeat(block: Block, condition: Expr)
    | If(condition: Expr, block: Block, arms: StmtArms)
    | NumericFor(name: string, start: Expr, limit: Expr, step: Option<Expr>, block: Block)
    | GenericFor(names: Names, exprs: Exprs, block: Block)
    | FunctionDecl(path: Names, selector: Option<string>, body: Body)
    | LocalFunction(name: string, body: Body)
    | Local(bindings: Bindings, values: Exprs)
    | Empty
    | Goto(name: string)
    | Label(name: string)
    | Break
    | Compound(target: Expr, cop: CompoundOp, value: Expr)

  datatype StmtArms = EndIf | Else(block: Block) | ElseIf(condition: Expr, block: Block, rest: StmtArms)

  predicate IsVar(e: Expr) { e.Name? || e.Index? || e.FieldAccess? }

  /** Expressions that take suffixes: call callees and index and field prefixes. */
  predicate IsPrefix(e: Expr) { IsVar(e) || e.Call? || e.Paren? }
}
