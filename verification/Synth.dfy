/** The tree constructors (`synth.rs`): where they add parentheses, and that what they build, to any
    depth, reads back. */
module Synth {
  import opened Wrappers
  import opened LuaSyntax
  import opened Emission
  import opened Grammar
  import opened CanonicalForm
  import RoundTrip

  // ----- parenthesization -----

  datatype Side = Left | Right

  /** Operators whose token goes on with a type it directly follows. */
  predicate ExtendsTypes(op: BinOp) { op.Lt? || op.BitAnd? || op.BitOr? }

  predicate EndsWithCast(e: Expr) {
    match e
    case Cast(_, _) => true
    case Binary(_, _, right) => EndsWithCast(right)
    case Unary(_, operand) => EndsWithCast(operand)
    case _ => false
  }

  predicate NeedsParens(operand: Expr, parent: BinOp, side: Side) {
    || (match operand
        case Binary(_, inner, _) =>
          || Precedence(inner) < Precedence(parent)
          || (Precedence(inner) == Precedence(parent) && RightAssociative(parent) == side.Left?)
        case Unary(_, _) => side.Left? && UNARY_PRECEDENCE < Precedence(parent)
        case IfExpr(_, _, _) => true
        case _ => false)
    || (side.Left? && ExtendsTypes(parent) && EndsWithCast(operand))
  }

  function WrapOperand(operand: Expr, parent: BinOp, side: Side): Expr {
    if NeedsParens(operand, parent, side) then Paren(operand) else operand
  }

  function WrapPrefix(e: Expr): Expr { if IsPrefix(e) then e else Paren(e) }

  // ----- constructors -----

  function MakeBinary(left: Expr, op: BinOp, right: Expr): Expr {
    Binary(WrapOperand(left, op, Left), op, WrapOperand(right, op, Right))
  }

  function MakeUnary(op: UnOp, operand: Expr): Expr {
    Unary(op, if operand.Binary? || operand.IfExpr? then Paren(operand) else operand)
  }

  function MakeCast(e: Expr, annotation: Type): Expr {
    Cast(if e.Binary? || e.Unary? || e.IfExpr? || e.Cast? then Paren(e) else e, annotation)
  }

  function SingleValue(e: Expr): Expr { if e.Call? || e.VarArg? then Paren(e) else e }

  function MakeCall(callee: Expr, selector: Option<string>, args: Args): Expr {
    Call(WrapPrefix(callee), selector, args)
  }

  function ParenIfComposite(t: Type): Type { if t.Union? || t.Intersection? then ParenType(t) else t }

  function UnionMember(t: Type): Type { ParenIfComposite(t) }

  function IntersectionMember(t: Type): Type { if t.Optional? then ParenType(t) else ParenIfComposite(t) }

  // ----- when a binary operation reads back -----

  /** The right edge is an if-expression outside parentheses, which takes in whatever follows. */
  predicate EndsOpen(e: Expr) {
    match e
    case IfExpr(_, _, _) => true
    case Binary(_, _, right) => EndsOpen(right)
    case Unary(_, operand) => EndsOpen(operand)
    case _ => false
  }

  lemma {:induction false} OpenTakesOperators(v: Version, settled: bool, e: Expr, op: BinOp)
    requires EndsOpen(e) && (Bitwise(op) ==> v.HasBitwise())
    ensures !Sealed(v, e, BinToken(op))
    decreases e
  {
    hide BinOpOf, BinToken, Precedence;
    BinTokensDistinct(op);
    match e
    case IfExpr(_, _, arms) => OpenArmsTakeOperators(v, arms, op);
    case Binary(_, _, right) => OpenTakesOperators(v, settled, right, op);
    case Unary(_, operand) => OpenTakesOperators(v, settled, operand, op);
    case _ =>
  }

  lemma {:induction false} OpenArmsTakeOperators(v: Version, arms: ExprArms, op: BinOp)
    requires Bitwise(op) ==> v.HasBitwise()
    ensures !ArmsSealed(v, arms, BinToken(op))
    decreases arms
  {
    hide BinOpOf, BinToken, Sealed;
    BinTokensDistinct(op);
    if arms.ElseIfExpr? {
      OpenArmsTakeOperators(v, arms.rest, op);
    }
  }

  lemma TypeBeforeOperator(t: Type, op: BinOp)
    requires !ExtendsTypes(op)
    ensures TypeSealed(t, BinToken(op))
  {
    hide TypeEdgeSealed;
    CloserSealsType(t, BinToken(op));
  }

  /** An operator token is no suffix and no cast. */
  lemma OperatorIsNoSuffix(op: BinOp)
    ensures !StartsSuffix(BinToken(op)) && BinToken(op) != Sign(DoubleColon)
  {
  }

  /** The edge of an operand that wrapping leaves alone does not take in the parent operator. */
  lemma {:induction false} EdgeSeals(v: Version, settled: bool, e: Expr, op: BinOp)
    requires Canonical(v, settled, e) && !EndsOpen(e) && !(ExtendsTypes(op) && EndsWithCast(e))
    requires e.Binary? ==> Precedence(op) < RightMinimum(e.op)
    requires e.Unary? ==> Precedence(op) < UNARY_PRECEDENCE
    ensures Sealed(v, e, BinToken(op))
  {
    hide BinOpOf, BinToken, TypeSealed, CanonicalType, CanonicalBody, CanonicalArgs, CanonicalFields, CanonicalHoles;
    BinTokensDistinct(op);
    if e.Binary? {
      EdgeSeals(v, settled, e.right, op);
    } else if e.Unary? {
      EdgeSeals(v, settled, e.operand, op);
    } else if e.Cast? {
      TypeBeforeOperator(e.annotation, op);
    } else {
      OperatorIsNoSuffix(op);
    }
  }

  /** In a canonical tree the topmost operator is the loosest of its left spine. */
  lemma {:induction false} TopIsLoosest(v: Version, settled: bool, e: Expr, min: nat)
    requires Canonical(v, settled, e) && (e.Binary? ==> min <= Precedence(e.op))
    ensures Spine(e, min)
  {
    hide BinOpOf, BinToken, CanonicalBody, CanonicalArgs, CanonicalFields, CanonicalHoles, CanonicalArms;
    if e.Binary? {
      BinTokensDistinct(e.op);
      TopIsLoosest(v, settled, e.left, min);
    }
  }

  lemma LeftOperandFits(v: Version, settled: bool, left: Expr, op: BinOp)
    requires Canonical(v, settled, left) && (Bitwise(op) ==> v.HasBitwise())
    ensures Canonical(v, settled, WrapOperand(left, op, Left))
    ensures Sealed(v, WrapOperand(left, op, Left), BinToken(op)) <==> NeedsParens(left, op, Left) || !EndsOpen(left)
  {
    hide Canonical, Sealed, EndsOpen, EndsWithCast, BinToken;
    if NeedsParens(left, op, Left) {
      ParenFits(v, settled, left, op);
    } else if EndsOpen(left) {
      OpenTakesOperators(v, settled, left, op);
    } else {
      EdgeSeals(v, settled, left, op);
    }
  }

  /** `MakeBinary` of canonical operands is canonical exactly when its left operand gets parentheses
      or does not end in an if-expression. */
  lemma BinaryIsCanonicalIff(v: Version, settled: bool, left: Expr, op: BinOp, right: Expr)
    requires Canonical(v, settled, left) && Canonical(v, settled, right) && (Bitwise(op) ==> v.HasBitwise())
    ensures Canonical(v, settled, MakeBinary(left, op, right)) <==> NeedsParens(left, op, Left) || !EndsOpen(left)
  {
    hide Canonical, Sealed, EndsOpen, NeedsParens, WrapOperand, Spine, RightMinimum, BinToken, Bitwise;
    LeftOperandFits(v, settled, left, op);
    RightOperandFits(v, settled, op, right);
    JoinedIff(v, settled, WrapOperand(left, op, Left), op, WrapOperand(right, op, Right));
  }

  lemma JoinedIff(v: Version, settled: bool, left: Expr, op: BinOp, right: Expr)
    requires Canonical(v, settled, left) && Canonical(v, settled, right) && (Bitwise(op) ==> v.HasBitwise())
    requires Spine(right, RightMinimum(op))
    ensures Canonical(v, settled, Binary(left, op, right)) <==> Sealed(v, left, BinToken(op))
  {
    hide Sealed, BinToken, Precedence;
  }

  lemma ParenFits(v: Version, settled: bool, e: Expr, op: BinOp)
    requires Canonical(v, settled, e)
    ensures Canonical(v, settled, Paren(e)) && Sealed(v, Paren(e), BinToken(op))
  {
    hide BinToken, StartsSuffix;
    OperatorIsNoSuffix(op);
  }

  lemma RightOperandFits(v: Version, settled: bool, op: BinOp, right: Expr)
    requires Canonical(v, settled, right)
    ensures Canonical(v, settled, WrapOperand(right, op, Right))
            && Spine(WrapOperand(right, op, Right), RightMinimum(op))
  {
    hide Canonical;
    if NeedsParens(right, op, Right) {
      ParenFits(v, settled, right, op);
    } else {
      TopIsLoosest(v, settled, right, RightMinimum(op));
    }
  }

  /** Luau's `if c then y else` with `last` behind it. */
  function Choice(last: Expr): Expr { IfExpr(Name("c"), Name("y"), ElseExpr(last)) }

  lemma ChoiceCanonical(last: Expr)
    requires Canonical(Luau, false, last)
    ensures Canonical(Luau, false, Choice(last))
  {
    NameCanonical("c");
    NameCanonical("y");
    assert CanonicalArms(Luau, false, ElseExpr(last));
  }

  lemma NameCanonical(name: string)
    ensures Canonical(Luau, false, Name(name)) && Sealed(Luau, Name(name), BinToken(Add))
  {
  }

  /** Both print as `x + if c then y else z + w`. */
  lemma SameTokens(k: Tokens)
    ensures var operand := Binary(Name("x"), Add, Choice(Name("z")));
            EmitExpr(Binary(operand, Add, Name("w")), k)
            == EmitExpr(Binary(Name("x"), Add, Choice(Binary(Name("z"), Add, Name("w")))), k)
  {
    var plus, z, w := BinToken(Add), Name("z"), Name("w");
    var (first, second) := (Choice(z), Choice(Binary(z, Add, w)));
    var tail := Tok(plus, EmitExpr(w, k));
    assert EmitExpr(Binary(z, Add, w), k) == EmitExpr(z, tail);
    assert EmitArms(ElseExpr(Binary(z, Add, w)), k) == EmitArms(ElseExpr(z), tail);
    assert EmitExpr(second, k) == EmitExpr(first, tail);
    var operand := Binary(Name("x"), Add, first);
    assert EmitExpr(operand, tail) == EmitExpr(Name("x"), Tok(plus, EmitExpr(first, tail)));
    assert EmitExpr(Binary(operand, Add, w), k) == EmitExpr(operand, tail);
  }

  /** A parsed operand can break the constructor: `x + if c then y else z` is canonical, but added to
      `w` it is printed without parentheses and read with `w` inside the else branch. */
  lemma OpenOperandMisreads()
    ensures var operand := Binary(Name("x"), Add, Choice(Name("z")));
            var read := Binary(Name("x"), Add, Choice(Binary(Name("z"), Add, Name("w"))));
            && Canonical(Luau, false, operand) && !Canonical(Luau, false, MakeBinary(operand, Add, Name("w")))
            && ParseExpr(Luau, 0, EmitExpr(MakeBinary(operand, Add, Name("w")), Eof)) == Ok(read, Eof)
            && read != MakeBinary(operand, Add, Name("w"))
  {
    hide Canonical, BinToken, Sealed, EndsWithCast, EmitExpr, ParseExpr;
    var x, z, w := Name("x"), Name("z"), Name("w");
    var operand := Binary(x, Add, Choice(z));
    NameCanonical("x");
    NameCanonical("z");
    NameCanonical("w");
    ChoiceCanonical(z);
    JoinedIff(Luau, false, x, Add, Choice(z));
    BinaryIsCanonicalIff(Luau, false, operand, Add, w);
    JoinedIff(Luau, false, z, Add, w);
    ChoiceCanonical(Binary(z, Add, w));
    JoinedIff(Luau, false, x, Add, Choice(Binary(z, Add, w)));
    assert MakeBinary(operand, Add, w) == Binary(operand, Add, w);
    SameTokens(Eof);
    RoundTrip.WholeReads(Luau, Binary(x, Add, Choice(Binary(z, Add, w))), Eof);
  }

  // ----- trees built by constructors only -----

  datatype Recipe =
    | Literal(leaf: Expr)
    | InField(prefix: Recipe, name: string)
    | InIndex(prefix: Recipe, index: Recipe)
    | ToCall(callee: Recipe, selector: Option<string>, args: Recipes)
    | ToCallTable(callee: Recipe, selector: Option<string>, fields: FieldRecipes)
    | ToCallString(callee: Recipe, selector: Option<string>, text: string)
    | InParens(inner: Recipe)
    | OneValue(inner: Recipe)
    | ToBinary(left: Recipe, op: BinOp, right: Recipe)
    | ToUnary(unop: UnOp, operand: Recipe)
    | ToCast(inner: Recipe, annotation: TypeRecipe)
    | ToTable(fields: FieldRecipes)
    | ToIf(condition: Recipe, thenExpr: Recipe, elseIfs: Branches, elseExpr: Recipe)
    | ToInterp(text: string, inner: Recipe, after: string, more: Parts)

  datatype Recipes = NoRecipes | MoreRecipes(head: Recipe, tail: Recipes)

  datatype FieldRecipe = AtKey(key: Recipe, value: Recipe) | AtName(name: string, value: Recipe)
    | AtPosition(value: Recipe)

  datatype FieldRecipes = NoFieldRecipes | MoreFieldRecipes(head: FieldRecipe, tail: FieldRecipes)

  datatype Branches = NoBranches | MoreBranches(condition: Recipe, chosen: Recipe, tail: Branches)

  datatype Parts = NoParts | MoreParts(inner: Recipe, after: string, tail: Parts)

  datatype TypeRecipe =
    | ToTypeName(name: string)
    | ToGeneric(name: string, args: TypeRecipes)
    | ToOptional(inner: TypeRecipe)
    | ToUnion(members: TypeRecipes)
    | ToIntersection(members: TypeRecipes)
    | ToParenType(inner: TypeRecipe)

  datatype TypeRecipes = NoTypeRecipes | MoreTypeRecipes(head: TypeRecipe, tail: TypeRecipes)

  predicate LiteralLeaf(e: Expr) {
    e.Nil? || e.False? || e.True? || e.VarArg? || e.Number? || e.StringLit? || e.Name? || e.PlainInterp?
  }

  function Build(r: Recipe): Expr
    decreases r
  {
    match r
    case Literal(leaf) => leaf
    case InField(prefix, name) => FieldAccess(WrapPrefix(Build(prefix)), name)
    case InIndex(prefix, index) => Index(WrapPrefix(Build(prefix)), Build(index))
    case ToCall(callee, selector, args) => MakeCall(Build(callee), selector, ParenArgs(BuildAll(args)))
    case ToCallTable(callee, selector, fields) => MakeCall(Build(callee), selector, TableArg(BuildFields(fields)))
    case ToCallString(callee, selector, text) => MakeCall(Build(callee), selector, StringArg(text))
    case InParens(inner) => Paren(Build(inner))
    case OneValue(inner) => SingleValue(Build(inner))
    case ToBinary(left, op, right) => MakeBinary(Build(left), op, Build(right))
    case ToUnary(op, operand) => MakeUnary(op, Build(operand))
    case ToCast(inner, annotation) => MakeCast(Build(inner), BuildType(annotation))
    case ToTable(fields) => Table(BuildFields(fields))
    case ToIf(condition, thenExpr, elseIfs, elseExpr) =>
      IfExpr(Build(condition), Build(thenExpr), BuildArms(elseIfs, Build(elseExpr)))
    case ToInterp(text, inner, after, more) => Interp(text, BuildHoles(Build(inner), after, more))
  }

  function BuildAll(rs: Recipes): Exprs
    decreases rs
  {
    match rs
    case NoRecipes => NoExprs
    case MoreRecipes(head, tail) => MoreExprs(Build(head), BuildAll(tail))
  }

  function BuildField(f: FieldRecipe): Field
    decreases f
  {
    match f
    case AtKey(key, value) => Bracketed(Build(key), Build(value))
    case AtName(name, value) => Named(name, Build(value))
    case AtPosition(value) => Positional(Build(value))
  }

  function BuildFields(fs: FieldRecipes): Fields
    decreases fs
  {
    match fs
    case NoFieldRecipes => NoFields
    case MoreFieldRecipes(head, tail) => MoreFields(BuildField(head), BuildFields(tail))
  }

  function BuildArms(bs: Branches, last: Expr): ExprArms
    decreases bs
  {
    match bs
    case NoBranches => ElseExpr(last)
    case MoreBranches(condition, chosen, tail) => ElseIfExpr(Build(condition), Build(chosen), BuildArms(tail, last))
  }

  function BuildHoles(e: Expr, after: string, more: Parts): Holes
    decreases more
  {
    match more
    case NoParts => LastHole(e, after)
    case MoreParts(inner, next, tail) => MoreHoles(e, after, BuildHoles(Build(inner), next, tail))
  }

  function BuildType(t: TypeRecipe): Type
    decreases t
  {
    match t
    case ToTypeName(name) => TypeName(name)
    case ToGeneric(name, args) => Generic(name, BuildTypes(args))
    case ToOptional(inner) => Optional(ParenIfComposite(BuildType(inner)))
    case ToUnion(members) => Union(BuildUnion(members))
    case ToIntersection(members) => Intersection(BuildIntersection(members))
    case ToParenType(inner) => ParenType(BuildType(inner))
  }

  function BuildTypes(ts: TypeRecipes): Types
    decreases ts
  {
    match ts
    case NoTypeRecipes => NoTypes
    case MoreTypeRecipes(head, tail) => MoreTypes(BuildType(head), BuildTypes(tail))
  }

  function BuildUnion(ts: TypeRecipes): (r: Types)
    ensures r.MoreTypes? == ts.MoreTypeRecipes?
    decreases ts
  {
    match ts
    case NoTypeRecipes => NoTypes
    case MoreTypeRecipes(head, tail) => MoreTypes(UnionMember(BuildType(head)), BuildUnion(tail))
  }

  function BuildIntersection(ts: TypeRecipes): (r: Types)
    ensures r.MoreTypes? == ts.MoreTypeRecipes?
    decreases ts
  {
    match ts
    case NoTypeRecipes => NoTypes
    case MoreTypeRecipes(head, tail) => MoreTypes(IntersectionMember(BuildType(head)), BuildIntersection(tail))
  }

  // ----- what the dialect has -----

  predicate Suits(v: Version, r: Recipe)
    decreases r
  {
    match r
    case Literal(leaf) => LiteralLeaf(leaf)
    case InField(prefix, _) => Suits(v, prefix)
    case InIndex(prefix, index) => Suits(v, prefix) && Suits(v, index)
    case ToCall(callee, _, args) => Suits(v, callee) && AllSuit(v, args)
    case ToCallTable(callee, _, fields) => Suits(v, callee) && FieldsSuit(v, fields)
    case ToCallString(callee, _, _) => Suits(v, callee)
    case InParens(inner) => Suits(v, inner)
    case OneValue(inner) => Suits(v, inner)
    case ToBinary(left, op, right) => Suits(v, left) && Suits(v, right) && (Bitwise(op) ==> v.HasBitwise())
    case ToUnary(_, operand) => Suits(v, operand)
    case ToCast(inner, annotation) => v.Luau? && Suits(v, inner) && TypeSuits(annotation)
    case ToTable(fields) => FieldsSuit(v, fields)
    case ToIf(condition, thenExpr, elseIfs, elseExpr) =>
      v.Luau? && Suits(v, condition) && Suits(v, thenExpr) && BranchesSuit(v, elseIfs) && Suits(v, elseExpr)
    case ToInterp(_, inner, _, more) => Suits(v, inner) && PartsSuit(v, more)
  }

  predicate AllSuit(v: Version, rs: Recipes)
    decreases rs
  {
    rs.MoreRecipes? ==> Suits(v, rs.head) && AllSuit(v, rs.tail)
  }

  predicate FieldSuits(v: Version, f: FieldRecipe)
    decreases f
  {
    Suits(v, f.value) && (f.AtKey? ==> Suits(v, f.key))
  }

  predicate FieldsSuit(v: Version, fs: FieldRecipes)
    decreases fs
  {
    fs.MoreFieldRecipes? ==> FieldSuits(v, fs.head) && FieldsSuit(v, fs.tail)
  }

  predicate BranchesSuit(v: Version, bs: Branches)
    decreases bs
  {
    bs.MoreBranches? ==> Suits(v, bs.condition) && Suits(v, bs.chosen) && BranchesSuit(v, bs.tail)
  }

  predicate PartsSuit(v: Version, ps: Parts)
    decreases ps
  {
    ps.MoreParts? ==> Suits(v, ps.inner) && PartsSuit(v, ps.tail)
  }

  /** Unions and intersections of at least two members: one member alone prints as itself. */
  predicate TypeSuits(t: TypeRecipe)
    decreases t
  {
    match t
    case ToTypeName(_) => true
    case ToGeneric(_, args) => TypesSuit(args)
    case ToOptional(inner) => TypeSuits(inner)
    case ToUnion(members) => members.MoreTypeRecipes? && members.tail.MoreTypeRecipes? && TypesSuit(members)
    case ToIntersection(members) => members.MoreTypeRecipes? && members.tail.MoreTypeRecipes? && TypesSuit(members)
    case ToParenType(inner) => TypeSuits(inner)
  }

  predicate TypesSuit(ts: TypeRecipes)
    decreases ts
  {
    ts.MoreTypeRecipes? ==> TypeSuits(ts.head) && TypesSuit(ts.tail)
  }

  // ----- everything built is canonical -----

  lemma {:induction false} TypeBuilt(t: TypeRecipe)
    requires TypeSuits(t)
    ensures CanonicalType(BuildType(t))
    decreases t
  {
    match t
    case ToTypeName(_) =>
    case ToGeneric(_, args) => TypesBuilt(args);
    case ToOptional(inner) => TypeBuilt(inner);
    case ToUnion(members) => UnionBuilt(members);
    case ToIntersection(members) => IntersectionBuilt(members);
    case ToParenType(inner) => TypeBuilt(inner);
  }

  lemma {:induction false} TypesBuilt(ts: TypeRecipes)
    requires TypesSuit(ts)
    ensures CanonicalTypes(BuildTypes(ts))
    decreases ts
  {
    if ts.MoreTypeRecipes? {
      TypeBuilt(ts.head);
      TypesBuilt(ts.tail);
    }
  }

  lemma {:induction false} UnionBuilt(ts: TypeRecipes)
    requires TypesSuit(ts)
    ensures CanonicalTypes(BuildUnion(ts)) && UnionMembers(BuildUnion(ts))
    decreases ts
  {
    if ts.MoreTypeRecipes? {
      TypeBuilt(ts.head);
      UnionBuilt(ts.tail);
    }
  }

  lemma {:induction false} IntersectionBuilt(ts: TypeRecipes)
    requires TypesSuit(ts)
    ensures CanonicalTypes(BuildIntersection(ts)) && IntersectionMembers(BuildIntersection(ts))
    decreases ts
  {
    if ts.MoreTypeRecipes? {
      TypeBuilt(ts.head);
      IntersectionBuilt(ts.tail);
    }
  }

  /** What every constructor keeps: canonical, and open only as an if-expression by itself. */
  predicate Sound(v: Version, settled: bool, e: Expr) { Canonical(v, settled, e) && (EndsOpen(e) ==> e.IfExpr?) }

  lemma BinarySound(v: Version, settled: bool, left: Expr, op: BinOp, right: Expr)
    requires Sound(v, settled, left) && Sound(v, settled, right) && (Bitwise(op) ==> v.HasBitwise())
    ensures Sound(v, settled, MakeBinary(left, op, right))
  {
    hide Canonical, EndsWithCast, Precedence, EndsOpen;
    BinaryIsCanonicalIff(v, settled, left, op, right);
    WrappedIsClosed(left, op, Left);
    WrappedIsClosed(right, op, Right);
    EdgeIsRight(WrapOperand(left, op, Left), op, WrapOperand(right, op, Right));
  }

  lemma WrappedIsClosed(e: Expr, op: BinOp, side: Side)
    requires EndsOpen(e) ==> e.IfExpr?
    ensures !EndsOpen(WrapOperand(e, op, side))
    ensures EndsOpen(e) ==> NeedsParens(e, op, side)
  {
    hide EndsWithCast, Precedence;
  }

  lemma EdgeIsRight(left: Expr, op: BinOp, right: Expr)
    ensures EndsOpen(Binary(left, op, right)) == EndsOpen(right)
  {
  }

  lemma UnarySound(v: Version, settled: bool, op: UnOp, operand: Expr)
    requires Sound(v, settled, operand)
    ensures Sound(v, settled, MakeUnary(op, operand))
  {
    hide CanonicalBody, CanonicalArgs, CanonicalFields, CanonicalHoles, CanonicalArms, Sealed;
    if operand.Binary? || operand.IfExpr? {
      assert Canonical(v, settled, Paren(operand));
      assert !EndsOpen(Paren(operand));
    } else {
      assert !EndsOpen(operand);
    }
  }

  lemma CastSound(v: Version, settled: bool, e: Expr, annotation: Type)
    requires v.Luau? && Sound(v, settled, e) && CanonicalType(annotation)
    ensures Sound(v, settled, MakeCast(e, annotation))
  {
    hide CanonicalBody, CanonicalArgs, CanonicalFields, CanonicalHoles, CanonicalArms, Sealed, CanonicalType;
    var inner := MakeCast(e, annotation).expr;
    assert Canonical(v, settled, inner) && SimpleSealed(v, inner, Sign(DoubleColon));
  }

  lemma PrefixSound(v: Version, settled: bool, e: Expr)
    requires Canonical(v, settled, e)
    ensures Canonical(v, settled, WrapPrefix(e)) && IsPrefix(WrapPrefix(e))
  {
    hide CanonicalBody, CanonicalArgs, CanonicalFields, CanonicalHoles, CanonicalArms, Sealed;
  }

  lemma CallSound(v: Version, settled: bool, callee: Expr, selector: Option<string>, args: Args)
    requires Canonical(v, settled, callee) && CanonicalArgs(v, settled, args)
    ensures Sound(v, settled, MakeCall(callee, selector, args))
  {
    hide CanonicalArgs, WrapPrefix;
    PrefixSound(v, settled, callee);
  }

  lemma LeafSound(v: Version, settled: bool, e: Expr)
    requires LiteralLeaf(e)
    ensures Sound(v, settled, e)
  {
  }

  lemma FieldSound(v: Version, settled: bool, prefix: Expr, name: string)
    requires Sound(v, settled, prefix)
    ensures Sound(v, settled, FieldAccess(WrapPrefix(prefix), name))
  {
    hide WrapPrefix;
    PrefixSound(v, settled, prefix);
  }

  lemma IndexSound(v: Version, settled: bool, prefix: Expr, index: Expr)
    requires Sound(v, settled, prefix) && Sound(v, settled, index)
    ensures Sound(v, settled, Index(WrapPrefix(prefix), index))
  {
    hide WrapPrefix;
    PrefixSound(v, settled, prefix);
  }

  lemma ParenSound(v: Version, settled: bool, e: Expr)
    requires Sound(v, settled, e)
    ensures Sound(v, settled, Paren(e)) && Sound(v, settled, SingleValue(e))
  {
  }

  lemma TableSound(v: Version, settled: bool, fields: Fields)
    requires CanonicalFields(v, settled, fields)
    ensures Sound(v, settled, Table(fields))
  {
    hide CanonicalFields;
  }

  lemma IfSound(v: Version, settled: bool, condition: Expr, thenExpr: Expr, arms: ExprArms)
    requires v.Luau? && Sound(v, settled, condition) && Sound(v, settled, thenExpr) && CanonicalArms(v, settled, arms)
    ensures Sound(v, settled, IfExpr(condition, thenExpr, arms))
  {
    hide CanonicalArms;
  }

  lemma InterpSound(v: Version, settled: bool, text: string, holes: Holes)
    requires CanonicalHoles(v, settled, holes)
    ensures Sound(v, settled, Interp(text, holes))
  {
    hide CanonicalHoles;
  }

  lemma {:induction false} Built(v: Version, settled: bool, r: Recipe)
    requires Suits(v, r)
    ensures Sound(v, settled, Build(r))
    decreases r
  {
    hide WrapPrefix, MakeBinary, MakeUnary, MakeCast, MakeCall, Sealed, Canonical, EndsOpen, CanonicalType;
    match r
    case Literal(leaf) => LeafSound(v, settled, leaf);
    case InField(prefix, name) =>
      Built(v, settled, prefix);
      FieldSound(v, settled, Build(prefix), name);
    case InIndex(prefix, index) =>
      Built(v, settled, prefix);
      Built(v, settled, index);
      IndexSound(v, settled, Build(prefix), Build(index));
    case ToCall(callee, selector, args) =>
      Built(v, settled, callee);
      AllBuilt(v, settled, args);
      CallSound(v, settled, Build(callee), selector, ParenArgs(BuildAll(args)));
    case ToCallTable(callee, selector, fields) =>
      Built(v, settled, callee);
      FieldsBuilt(v, settled, fields);
      CallSound(v, settled, Build(callee), selector, TableArg(BuildFields(fields)));
    case ToCallString(callee, selector, text) =>
      Built(v, settled, callee);
      CallSound(v, settled, Build(callee), selector, StringArg(text));
    case InParens(inner) =>
      Built(v, settled, inner);
      ParenSound(v, settled, Build(inner));
    case OneValue(inner) =>
      Built(v, settled, inner);
      ParenSound(v, settled, Build(inner));
    case ToBinary(left, op, right) =>
      Built(v, settled, left);
      Built(v, settled, right);
      BinarySound(v, settled, Build(left), op, Build(right));
    case ToUnary(op, operand) =>
      Built(v, settled, operand);
      UnarySound(v, settled, op, Build(operand));
    case ToCast(inner, annotation) =>
      Built(v, settled, inner);
      TypeBuilt(annotation);
      CastSound(v, settled, Build(inner), BuildType(annotation));
    case ToTable(fields) =>
      FieldsBuilt(v, settled, fields);
      TableSound(v, settled, BuildFields(fields));
    case ToIf(condition, thenExpr, elseIfs, elseExpr) =>
      Built(v, settled, condition);
      Built(v, settled, thenExpr);
      Built(v, settled, elseExpr);
      ArmsBuilt(v, settled, elseIfs, Build(elseExpr));
      IfSound(v, settled, Build(condition), Build(thenExpr), BuildArms(elseIfs, Build(elseExpr)));
    case ToInterp(text, inner, after, more) =>
      Built(v, settled, inner);
      HolesBuilt(v, settled, Build(inner), after, more);
      InterpSound(v, settled, text, BuildHoles(Build(inner), after, more));
  }

  lemma {:induction false} AllBuilt(v: Version, settled: bool, rs: Recipes)
    requires AllSuit(v, rs)
    ensures CanonicalExprs(v, settled, BuildAll(rs))
    decreases rs
  {
    hide Build, Canonical, Suits, EndsOpen;
    if rs.MoreRecipes? {
      Built(v, settled, rs.head);
      AllBuilt(v, settled, rs.tail);
    }
  }

  lemma {:induction false} FieldsBuilt(v: Version, settled: bool, fs: FieldRecipes)
    requires FieldsSuit(v, fs)
    ensures CanonicalFields(v, settled, BuildFields(fs))
    decreases fs
  {
    hide Build, Canonical, Suits;
    if fs.MoreFieldRecipes? {
      Built(v, settled, fs.head.value);
      if fs.head.AtKey? {
        Built(v, settled, fs.head.key);
      }
      assert CanonicalField(v, settled, BuildField(fs.head));
      FieldsBuilt(v, settled, fs.tail);
    }
  }

  lemma {:induction false} ArmsBuilt(v: Version, settled: bool, bs: Branches, last: Expr)
    requires BranchesSuit(v, bs) && Canonical(v, settled, last)
    ensures CanonicalArms(v, settled, BuildArms(bs, last))
    decreases bs
  {
    hide Build, Canonical, Suits;
    if bs.MoreBranches? {
      Built(v, settled, bs.condition);
      Built(v, settled, bs.chosen);
      ArmsBuilt(v, settled, bs.tail, last);
    }
  }

  lemma {:induction false} HolesBuilt(v: Version, settled: bool, e: Expr, after: string, more: Parts)
    requires PartsSuit(v, more) && Canonical(v, settled, e)
    ensures CanonicalHoles(v, settled, BuildHoles(e, after, more))
    decreases more
  {
    hide Build, Canonical, Suits;
    if more.MoreParts? {
      Built(v, settled, more.inner);
      HolesBuilt(v, settled, Build(more.inner), more.after, more.tail);
    }
  }

  /** Every expression the constructors build, to any depth, is what the parser makes of its tokens. */
  lemma BuiltReads(v: Version, r: Recipe)
    requires Suits(v, r)
    ensures ParseExpr(v, 0, EmitExpr(Build(r), Eof)) == Ok(Build(r), Eof)
  {
    hide ParseExpr, EmitExpr, Build, Canonical, Suits;
    Built(v, v.HasEmptyStatement(), r);
    RoundTrip.WholeReads(v, Build(r), Eof);
  }
}
