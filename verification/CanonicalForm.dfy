/** The trees whose printed tokens read back as the same tree.

    `Sealed(v, e, next)` says that a reader who has just read `e` cannot take `next` into it: the
    right edge of `e` is closed against that token. `Canonical` asks it at every place where an
    operand is directly followed by an operator or `::`. */
module CanonicalForm {
  import opened Wrappers
  import opened LuaSyntax
  import opened Emission
  import opened Grammar

  // ----- types -----

  /** No union, intersection or `?` at the top: what may stand before `?`. */
  predicate PrimaryType(t: Type) { t.TypeName? || t.Generic? || t.ParenType? }

  predicate PostfixType(t: Type) { PrimaryType(t) || t.Optional? }

  predicate CanonicalType(t: Type) {
    match t
    case TypeName(_) => true
    case Generic(_, args) => CanonicalTypes(args)
    case Optional(inner) => PostfixType(inner) && CanonicalType(inner)
    case Union(types) => types.MoreTypes? && types.tail.MoreTypes? && UnionMembers(types) && CanonicalTypes(types)
    case Intersection(types) =>
      types.MoreTypes? && types.tail.MoreTypes? && IntersectionMembers(types) && CanonicalTypes(types)
    case ParenType(inner) => CanonicalType(inner)
  }

  predicate CanonicalTypes(types: Types) {
    types.MoreTypes? ==> CanonicalType(types.head) && CanonicalTypes(types.tail)
  }

  predicate UnionMembers(types: Types) {
    types.MoreTypes? ==> PostfixType(types.head) && UnionMembers(types.tail)
  }

  predicate IntersectionMembers(types: Types) {
    types.MoreTypes? ==> PrimaryType(types.head) && IntersectionMembers(types.tail)
  }

  predicate PrimaryTypeSealed(t: Type, next: Token) {
    match t
    case TypeName(name) =>
      next !in [Sign(Dot), Sign(Less), Sign(DotDotDot)] && (name == "typeof" ==> next != Sign(LeftParen))
    case ParenType(_) => next != Sign(Arrow)
    case _ => true
  }

  predicate TypeSealed(t: Type, next: Token) {
    && next !in [Sign(Question), Sign(Ampersand), Sign(Pipe)]
    && TypeEdgeSealed(t, next)
  }

  predicate TypeEdgeSealed(t: Type, next: Token) {
    match t
    case Union(types) => TypesEdgeSealed(types, next)
    case Intersection(types) => TypesEdgeSealed(types, next)
    case Optional(_) => true
    case _ => PrimaryTypeSealed(t, next)
  }

  predicate TypesEdgeSealed(types: Types, next: Token) {
    types.MoreTypes? ==>
      if types.tail.NoTypes? then TypeEdgeSealed(types.head, next) else TypesEdgeSealed(types.tail, next)
  }

  // ----- expressions -----

  predicate Sealed(v: Version, e: Expr, next: Token)
    decreases e, 1
  {
    match e
    case Binary(_, op, right) => !TokenBinds(v, RightMinimum(op), next) && Sealed(v, right, next)
    case Unary(_, operand) => !TokenBinds(v, UNARY_PRECEDENCE, next) && Sealed(v, operand, next)
    case Cast(_, annotation) => TypeSealed(annotation, next)
    case _ => SimpleSealed(v, e, next) && !(v.Luau? && next == Sign(DoubleColon))
  }

  /** The same for what a cast may apply to, `::` apart. */
  predicate SimpleSealed(v: Version, e: Expr, next: Token)
    decreases e, 0
  {
    match e
    case IfExpr(_, _, arms) => ArmsSealed(v, arms, next)
    case _ => IsPrefix(e) ==> !StartsSuffix(next)
  }

  predicate ArmsSealed(v: Version, arms: ExprArms, next: Token)
    decreases arms
  {
    match arms
    case ElseExpr(expr) => !TokenBinds(v, 0, next) && Sealed(v, expr, next)
    case ElseIfExpr(_, _, rest) => ArmsSealed(v, rest, next)
  }

  /** Every operator on the left spine binds at least as tightly as `min`. */
  predicate Spine(e: Expr, min: nat) {
    e.Binary? ==> min <= Precedence(e.op) && Spine(e.left, min)
  }

  predicate Canonical(v: Version, settled: bool, e: Expr)
    decreases e
  {
    match e
    case FunctionDef(body) => CanonicalBody(v, settled, body)
    case Index(prefix, index) => IsPrefix(prefix) && Canonical(v, settled, prefix) && Canonical(v, settled, index)
    case FieldAccess(prefix, _) => IsPrefix(prefix) && Canonical(v, settled, prefix)
    case Call(callee, _, args) => IsPrefix(callee) && Canonical(v, settled, callee) && CanonicalArgs(v, settled, args)
    case Paren(inner) => Canonical(v, settled, inner)
    case Table(fields) => CanonicalFields(v, settled, fields)
    case Binary(left, op, right) =>
      && (Bitwise(op) ==> v.HasBitwise())
      && Canonical(v, settled, left) && Sealed(v, left, BinToken(op))
      && Canonical(v, settled, right) && Spine(right, RightMinimum(op))
    case Unary(_, operand) => Canonical(v, settled, operand) && Spine(operand, UNARY_PRECEDENCE)
    case IfExpr(condition, thenExpr, arms) =>
      v.Luau? && Canonical(v, settled, condition) && Canonical(v, settled, thenExpr) && CanonicalArms(v, settled, arms)
    case Interp(_, holes) => CanonicalHoles(v, settled, holes)
    case Cast(expr, annotation) =>
      && v.Luau? && CanonicalType(annotation)
      && Canonical(v, settled, expr) && !expr.Binary? && !expr.Unary? && !expr.Cast?
      && SimpleSealed(v, expr, Sign(DoubleColon))
    case _ => true
  }

  predicate CanonicalExprs(v: Version, settled: bool, es: Exprs)
    decreases es
  {
    es.MoreExprs? ==> Canonical(v, settled, es.head) && CanonicalExprs(v, settled, es.tail)
  }

  predicate CanonicalArgs(v: Version, settled: bool, args: Args)
    decreases args
  {
    match args
    case ParenArgs(exprs) => CanonicalExprs(v, settled, exprs)
    case TableArg(fields) => CanonicalFields(v, settled, fields)
    case StringArg(_) => true
  }

  predicate CanonicalFields(v: Version, settled: bool, fields: Fields)
    decreases fields
  {
    fields.MoreFields? ==> CanonicalField(v, settled, fields.head) && CanonicalFields(v, settled, fields.tail)
  }

  predicate CanonicalField(v: Version, settled: bool, f: Field)
    decreases f
  {
    match f
    case Bracketed(key, value) => Canonical(v, settled, key) && Canonical(v, settled, value)
    case Named(_, value) => Canonical(v, settled, value)
    case Positional(value) => Canonical(v, settled, value)
  }

  predicate CanonicalArms(v: Version, settled: bool, arms: ExprArms)
    decreases arms
  {
    match arms
    case ElseExpr(expr) => Canonical(v, settled, expr)
    case ElseIfExpr(condition, expr, rest) =>
      Canonical(v, settled, condition) && Canonical(v, settled, expr) && CanonicalArms(v, settled, rest)
  }

  predicate CanonicalHoles(v: Version, settled: bool, holes: Holes)
    decreases holes
  {
    match holes
    case LastHole(expr, _) => Canonical(v, settled, expr)
    case MoreHoles(expr, _, rest) => Canonical(v, settled, expr) && CanonicalHoles(v, settled, rest)
  }

  // ----- statements -----

  predicate CanonicalBody(v: Version, settled: bool, body: Body)
    decreases body
  {
    CanonicalBlock(v, settled, body.block)
  }

  predicate CanonicalBlock(v: Version, settled: bool, b: Block)
    decreases b
  {
    && CanonicalStmts(v, settled, b.stmts, true)
    && match b.last
       case Return(exprs) => CanonicalExprs(v, settled, exprs)
       case BreakLast => v.BreakIsLast()
       case Continue => v.Luau?
       case NoLast => true
  }

  /** `settled`: every `;` the printer would put before a `(` is a statement of the tree already. */
  predicate CanonicalStmts(v: Version, settled: bool, ss: Stmts, safe: bool)
    decreases ss
  {
    ss.MoreStmts? ==>
      && CanonicalStmt(v, settled, ss.head)
      && (settled ==> !NeedsGuard(ss.head, safe))
      && CanonicalStmts(v, settled, ss.tail, ss.head.Empty?)
  }

  predicate CanonicalBindings(v: Version, bindings: Bindings) {
    bindings.MoreBindings? ==>
      && (bindings.head.attribute.Some? ==> v.HasAttributes() && bindings.head.attribute.value in ["const", "close"])
      && CanonicalBindings(v, bindings.tail)
  }

  predicate CanonicalStmt(v: Version, settled: bool, s: Stmt)
    decreases s
  {
    match s
    case Assign(targets, values) =>
      targets.MoreExprs? && AllVars(targets) && values.MoreExprs? && CanonicalExprs(v, settled, targets)
        && CanonicalExprs(v, settled, values)
    case CallStmt(call) => call.Call? && Canonical(v, settled, call)
    case Do(block) => CanonicalBlock(v, settled, block)
    case While(condition, block) => Canonical(v, settled, condition) && CanonicalBlock(v, settled, block)
    case Repeat(block, condition) => CanonicalBlock(v, settled, block) && Canonical(v, settled, condition)
    case If(condition, block, arms) =>
      Canonical(v, settled, condition) && CanonicalBlock(v, settled, block) && CanonicalStmtArms(v, settled, arms)
    case NumericFor(_, start, limit, step, block) =>
      Canonical(v, settled, start) && Canonical(v, settled, limit) && CanonicalStep(v, settled, step)
        && CanonicalBlock(v, settled, block)
    case GenericFor(names, exprs, block) =>
      names.MoreNames? && exprs.MoreExprs? && CanonicalExprs(v, settled, exprs) && CanonicalBlock(v, settled, block)
    case FunctionDecl(path, _, body) => path.MoreNames? && CanonicalBody(v, settled, body)
    case LocalFunction(_, body) => CanonicalBody(v, settled, body)
    case Local(bindings, values) =>
      bindings.MoreBindings? && CanonicalBindings(v, bindings) && Closers(bindings) <= 1
        && CanonicalExprs(v, settled, values)
    case Empty => v.HasEmptyStatement()
    case Goto(_) => v.HasGoto()
    case Label(_) => v.HasGoto()
    case Break => !v.BreakIsLast()
    case Compound(target, _, value) =>
      v.Luau? && IsVar(target) && Canonical(v, settled, target) && Canonical(v, settled, value)
  }

  predicate CanonicalStep(v: Version, settled: bool, step: Option<Expr>)
    decreases step
  {
    match step
    case None => true
    case Some(expr) => Canonical(v, settled, expr)
  }

  predicate CanonicalStmtArms(v: Version, settled: bool, arms: StmtArms)
    decreases arms
  {
    match arms
    case EndIf => true
    case Else(block) => CanonicalBlock(v, settled, block)
    case ElseIf(condition, block, rest) =>
      Canonical(v, settled, condition) && CanonicalBlock(v, settled, block) && CanonicalStmtArms(v, settled, rest)
  }

  // ----- what no expression takes in -----

  /** Tokens that close every expression: no operator, suffix or type goes on with one. */
  predicate Stops(v: Version, t: Token) {
    && !TokenBinds(v, 0, t)
    && !StartsSuffix(t)
    && (v.Luau? ==>
          t !in [Sign(DoubleColon), Sign(Question), Sign(Ampersand), Sign(Pipe), Sign(Less), Sign(DotDotDot),
                 Sign(Arrow)])
  }

  /** Tokens that extend no type at its right edge. */
  predicate ClosesTypes(t: Token) {
    t !in [Sign(Dot), Sign(Less), Sign(DotDotDot), Sign(LeftParen), Sign(Arrow)]
  }

  lemma {:induction false} CloserSealsType(t: Type, next: Token)
    requires ClosesTypes(next)
    ensures TypeEdgeSealed(t, next)
    decreases t
  {
    match t
    case Union(types) => CloserSealsTypes(types, next);
    case Intersection(types) => CloserSealsTypes(types, next);
    case _ =>
  }

  lemma {:induction false} CloserSealsTypes(types: Types, next: Token)
    requires ClosesTypes(next)
    ensures TypesEdgeSealed(types, next)
    decreases types
  {
    if types.MoreTypes? {
      CloserSealsType(types.head, next);
      CloserSealsTypes(types.tail, next);
    }
  }

  lemma {:induction false} StopSeals(v: Version, settled: bool, e: Expr, next: Token)
    requires Stops(v, next) && Canonical(v, settled, e)
    ensures Sealed(v, e, next)
    decreases e
  {
    match e
    case Binary(_, _, right) => StopSeals(v, settled, right, next);
    case Unary(_, operand) => StopSeals(v, settled, operand, next);
    case Cast(_, annotation) => CloserSealsType(annotation, next);
    case IfExpr(_, _, arms) => StopSealsArms(v, settled, arms, next);
    case _ =>
  }

  lemma {:induction false} StopSealsArms(v: Version, settled: bool, arms: ExprArms, next: Token)
    requires Stops(v, next) && CanonicalArms(v, settled, arms)
    ensures ArmsSealed(v, arms, next)
    decreases arms
  {
    match arms
    case ElseExpr(expr) => StopSeals(v, settled, expr, next);
    case ElseIfExpr(_, _, rest) => StopSealsArms(v, settled, rest, next);
  }
}
