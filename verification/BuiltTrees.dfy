/** What the constructors build is what was asked for: every part in its place, and no change but parentheses
    around an operand, a prefix or a call that must give one value. */
module BuiltTrees {
  import opened LuaSyntax
  import opened Synth

  /** The tree is the one asked for, or that in one pair of parentheses. */
  predicate Within(r: Recipe, e: Expr)
    decreases r, 1
  {
    Made(r, e) || (e.Paren? && Made(r, e.inner))
  }

  /** In front of a call, a field or an index: in parentheses only where no such tree may stand bare. */
  predicate AsPrefix(r: Recipe, e: Expr)
    decreases r, 1
  {
    IsPrefix(e) && (Made(r, e) || (e.Paren? && !IsPrefix(e.inner) && Made(r, e.inner)))
  }

  predicate GivesMany(e: Expr) { e.Call? || e.VarArg? }

  predicate Made(r: Recipe, e: Expr)
    decreases r, 0
  {
    match r
    case Literal(leaf) => e == leaf
    case InField(prefix, name) => e.FieldAccess? && e.name == name && AsPrefix(prefix, e.prefix)
    case InIndex(prefix, index) => e.Index? && AsPrefix(prefix, e.prefix) && Made(index, e.index)
    case ToCall(callee, selector, args) =>
      e.Call? && AsPrefix(callee, e.callee) && e.selector == selector && e.args.ParenArgs?
      && AllMade(args, e.args.exprs)
    case ToCallTable(callee, selector, fields) =>
      e.Call? && AsPrefix(callee, e.callee) && e.selector == selector && e.args.TableArg?
      && FieldsMade(fields, e.args.fields)
    case ToCallString(callee, selector, text) =>
      e.Call? && AsPrefix(callee, e.callee) && e.selector == selector && e.args == StringArg(text)
    case InParens(inner) => e.Paren? && Made(inner, e.inner)
    case OneValue(inner) => !GivesMany(e)
      && (Made(inner, e) || (e.Paren? && GivesMany(e.inner) && Made(inner, e.inner)))
    case ToBinary(left, op, right) => e.Binary? && e.op == op && Within(left, e.left) && Within(right, e.right)
    case ToUnary(op, operand) => e.Unary? && e.unop == op && Within(operand, e.operand)
    case ToCast(inner, annotation) => e.Cast? && Within(inner, e.expr) && TypeMade(annotation, e.annotation)
    case ToTable(fields) => e.Table? && FieldsMade(fields, e.fields)
    case ToIf(condition, thenExpr, elseIfs, elseExpr) =>
      e.IfExpr? && Made(condition, e.condition) && Made(thenExpr, e.thenExpr)
      && ArmsMade(elseIfs, e.arms) && Made(elseExpr, ElseOf(e.arms))
    case ToInterp(text, inner, after, more) =>
      e.Interp? && e.text == text && Made(inner, e.holes.expr) && e.holes.text == after && PartsMade(more, e.holes)
  }

  predicate AllMade(rs: Recipes, es: Exprs)
    decreases rs, 0
  {
    match rs
    case NoRecipes => es == NoExprs
    case MoreRecipes(head, tail) => es.MoreExprs? && Made(head, es.head) && AllMade(tail, es.tail)
  }

  predicate FieldMade(r: FieldRecipe, f: Field)
    decreases r, 0
  {
    match r
    case AtKey(key, value) => f.Bracketed? && Made(key, f.key) && Made(value, f.value)
    case AtName(name, value) => f.Named? && f.name == name && Made(value, f.value)
    case AtPosition(value) => f.Positional? && Made(value, f.value)
  }

  predicate FieldsMade(rs: FieldRecipes, fs: Fields)
    decreases rs, 0
  {
    match rs
    case NoFieldRecipes => fs == NoFields
    case MoreFieldRecipes(head, tail) => fs.MoreFields? && FieldMade(head, fs.head) && FieldsMade(tail, fs.tail)
  }

  predicate ArmsMade(bs: Branches, arms: ExprArms)
    decreases bs, 0
  {
    match bs
    case NoBranches => arms.ElseExpr?
    case MoreBranches(condition, chosen, tail) =>
      arms.ElseIfExpr? && Made(condition, arms.condition) && Made(chosen, arms.expr) && ArmsMade(tail, arms.rest)
  }

  function ElseOf(arms: ExprArms): Expr {
    match arms
    case ElseExpr(e) => e
    case ElseIfExpr(_, _, rest) => ElseOf(rest)
  }

  /** The holes behind the first one. */
  predicate PartsMade(ps: Parts, holes: Holes)
    decreases ps, 0
  {
    match ps
    case NoParts => holes.LastHole?
    case MoreParts(inner, after, tail) =>
      holes.MoreHoles? && Made(inner, holes.rest.expr) && holes.rest.text == after && PartsMade(tail, holes.rest)
  }

  predicate TypeWithin(r: TypeRecipe, t: Type)
    decreases r, 1
  {
    TypeMade(r, t) || (t.ParenType? && TypeMade(r, t.inner))
  }

  predicate TypeMade(r: TypeRecipe, t: Type)
    decreases r, 0
  {
    match r
    case ToTypeName(name) => t == TypeName(name)
    case ToGeneric(name, args) => t.Generic? && t.name == name && TypesMade(args, t.args, false)
    case ToOptional(inner) => t.Optional? && TypeWithin(inner, t.inner)
    case ToUnion(members) => t.Union? && TypesMade(members, t.types, true)
    case ToIntersection(members) => t.Intersection? && TypesMade(members, t.types, true)
    case ToParenType(inner) => t.ParenType? && TypeMade(inner, t.inner)
  }

  /** A list of types; the members of a union or an intersection may get parentheses. */
  predicate TypesMade(rs: TypeRecipes, ts: Types, members: bool)
    decreases rs, 0
  {
    match rs
    case NoTypeRecipes => ts == NoTypes
    case MoreTypeRecipes(head, tail) =>
      ts.MoreTypes? && (if members then TypeWithin(head, ts.head) else TypeMade(head, ts.head))
      && TypesMade(tail, ts.tail, members)
  }

  // ----- the constructors build that -----

  lemma {:induction false} TypeIsMade(r: TypeRecipe)
    ensures TypeMade(r, BuildType(r))
    decreases r
  {
    match r
    case ToTypeName(_) =>
    case ToGeneric(_, args) => TypesAreMade(args);
    case ToOptional(inner) => TypeIsMade(inner);
    case ToUnion(members) => TypesAreMade(members);
    case ToIntersection(members) => TypesAreMade(members);
    case ToParenType(inner) => TypeIsMade(inner);
  }

  lemma {:induction false} TypesAreMade(rs: TypeRecipes)
    ensures TypesMade(rs, BuildTypes(rs), false)
    ensures TypesMade(rs, BuildUnion(rs), true) && TypesMade(rs, BuildIntersection(rs), true)
    decreases rs
  {
    if rs.MoreTypeRecipes? {
      TypeIsMade(rs.head);
      TypesAreMade(rs.tail);
    }
  }

  /** Every tree the constructors build, to any depth, has the parts it was asked to have, in their order. */
  lemma {:induction false} BuiltAsAsked(r: Recipe)
    ensures Made(r, Build(r))
    decreases r
  {
    match r
    case Literal(_) =>
    case InField(prefix, _) => BuiltAsAsked(prefix);
    case InIndex(prefix, index) => BuiltAsAsked(prefix); BuiltAsAsked(index);
    case ToCall(callee, _, args) => BuiltAsAsked(callee); AllBuiltAsAsked(args);
    case ToCallTable(callee, _, fields) => BuiltAsAsked(callee); FieldsBuiltAsAsked(fields);
    case ToCallString(callee, _, _) => BuiltAsAsked(callee);
    case InParens(inner) => BuiltAsAsked(inner);
    case OneValue(inner) => BuiltAsAsked(inner);
    case ToBinary(left, _, right) => BuiltAsAsked(left); BuiltAsAsked(right);
    case ToUnary(_, operand) => BuiltAsAsked(operand);
    case ToCast(inner, annotation) => BuiltAsAsked(inner); TypeIsMade(annotation);
    case ToTable(fields) => FieldsBuiltAsAsked(fields);
    case ToIf(condition, thenExpr, elseIfs, elseExpr) =>
      BuiltAsAsked(condition);
      BuiltAsAsked(thenExpr);
      BuiltAsAsked(elseExpr);
      ArmsBuiltAsAsked(elseIfs, Build(elseExpr));
    case ToInterp(_, inner, after, more) =>
      BuiltAsAsked(inner);
      PartsBuiltAsAsked(Build(inner), after, more);
  }

  lemma {:induction false} AllBuiltAsAsked(rs: Recipes)
    ensures AllMade(rs, BuildAll(rs))
    decreases rs
  {
    if rs.MoreRecipes? {
      BuiltAsAsked(rs.head);
      AllBuiltAsAsked(rs.tail);
    }
  }

  lemma {:induction false} FieldsBuiltAsAsked(rs: FieldRecipes)
    ensures FieldsMade(rs, BuildFields(rs))
    decreases rs
  {
    if rs.MoreFieldRecipes? {
      match rs.head {
        case AtKey(key, value) => BuiltAsAsked(key); BuiltAsAsked(value);
        case AtName(_, value) => BuiltAsAsked(value);
        case AtPosition(value) => BuiltAsAsked(value);
      }
      FieldsBuiltAsAsked(rs.tail);
    }
  }

  lemma {:induction false} ArmsBuiltAsAsked(bs: Branches, last: Expr)
    ensures ArmsMade(bs, BuildArms(bs, last)) && ElseOf(BuildArms(bs, last)) == last
    decreases bs
  {
    if bs.MoreBranches? {
      BuiltAsAsked(bs.condition);
      BuiltAsAsked(bs.chosen);
      ArmsBuiltAsAsked(bs.tail, last);
    }
  }

  lemma {:induction false} PartsBuiltAsAsked(first: Expr, after: string, more: Parts)
    ensures var holes := BuildHoles(first, after, more);
            holes.expr == first && holes.text == after && PartsMade(more, holes)
    decreases more
  {
    if more.MoreParts? {
      BuiltAsAsked(more.inner);
      PartsBuiltAsAsked(Build(more.inner), more.after, more.tail);
    }
  }
}
