/** A tree that was parsed from spellable tokens is written with spellable tokens: what the printer adds,
    every dialect has, and everything else comes from the source. */
module SourceSpelling {
  import opened Wrappers
  import opened LuaSyntax
  import opened Emission
  import opened Grammar
  import opened Relex

  // ----- trees that are written with spellable tokens, whatever follows -----

  ghost predicate SpellsType(v: Version, t: Type) {
    forall k :: AllSpellable(v, k) ==> AllSpellable(v, EmitType(t, k))
  }

  ghost predicate SpellsTypes(v: Version, types: Types) {
    forall separator, k :: Spellable(v, separator) && AllSpellable(v, k) ==>
      AllSpellable(v, EmitTypes(types, separator, k))
  }

  ghost predicate Spells(v: Version, e: Expr) {
    forall k :: AllSpellable(v, k) ==> AllSpellable(v, EmitExpr(e, k))
  }

  ghost predicate SpellsAll(v: Version, es: Exprs) {
    forall k :: AllSpellable(v, k) ==> AllSpellable(v, EmitExprs(es, k))
  }

  ghost predicate SpellsArgs(v: Version, args: Args) {
    forall k :: AllSpellable(v, k) ==> AllSpellable(v, EmitArgs(args, k))
  }

  ghost predicate SpellsFields(v: Version, fields: Fields) {
    forall k :: AllSpellable(v, k) ==> AllSpellable(v, EmitFields(fields, k))
  }

  ghost predicate SpellsField(v: Version, field: Field) {
    forall k :: AllSpellable(v, k) ==> AllSpellable(v, EmitField(field, k))
  }

  ghost predicate SpellsArms(v: Version, arms: ExprArms) {
    forall k :: AllSpellable(v, k) ==> AllSpellable(v, EmitArms(arms, k))
  }

  ghost predicate SpellsHoles(v: Version, holes: Holes) {
    forall k :: AllSpellable(v, k) ==> AllSpellable(v, EmitHoles(holes, k))
  }

  ghost predicate SpellsNames(v: Version, names: Names) {
    forall separator, k :: Spellable(v, Sign(separator)) && AllSpellable(v, k) ==>
      AllSpellable(v, EmitNames(names, separator, k))
  }

  ghost predicate SpellsBody(v: Version, body: Body) {
    forall k :: AllSpellable(v, k) ==> AllSpellable(v, EmitBody(body, k))
  }

  /** With or without a guard in front. */
  ghost predicate SpellsBlock(v: Version, b: Block) {
    forall safe, k :: AllSpellable(v, k) ==> AllSpellable(v, EmitStmts(b.stmts, safe, EmitLast(b.last, k)))
  }

  ghost predicate SpellsStmt(v: Version, s: Stmt) {
    forall k :: AllSpellable(v, k) ==> AllSpellable(v, EmitStmt(s, k))
  }

  ghost predicate SpellsArmsOf(v: Version, arms: StmtArms) {
    forall k :: AllSpellable(v, k) ==> AllSpellable(v, EmitStmtArms(arms, k))
  }

  ghost predicate SpellsBindings(v: Version, bindings: Bindings) {
    forall k :: AllSpellable(v, k) ==> AllSpellable(v, EmitBindings(bindings, k))
  }

  ghost predicate SpellsStep(v: Version, step: Option<Expr>) { step.Some? ==> Spells(v, step.value) }

  ghost predicate SpellsSelector(v: Version, selector: Option<string>) {
    selector.Some? ==> Spellable(v, Identifier(selector.value))
  }

  lemma EmptySpells(v: Version)
    ensures SpellsTypes(v, NoTypes) && SpellsAll(v, NoExprs) && SpellsFields(v, NoFields) && SpellsNames(v, NoNames)
  {
  }

  /** What every dialect has. */
  lemma FixedSpell(v: Version)
    ensures forall s: Symbol | s in [LeftParen, RightParen, LeftBrace, RightBrace, LeftBracket, RightBracket] ::
            Spellable(v, Sign(s))
    ensures forall s: Symbol | s in [Dot, DotDotDot, Colon, DoubleColon, Semicolon, Comma, Equal, Less, Greater] ::
            Spellable(v, Sign(s))
    ensures forall w: Keyword | !w.KwGoto? && !w.KwGlobal? :: Spellable(v, Word(w))
    ensures v.HasGoto() ==> Spellable(v, Word(KwGoto))
  {
  }

  // ----- types -----

  lemma TypesSpell(v: Version, head: Type, tail: Types)
    requires SpellsType(v, head) && SpellsTypes(v, tail)
    ensures SpellsTypes(v, MoreTypes(head, tail))
  {
    hide Spellable;
    forall separator, k | Spellable(v, separator) && AllSpellable(v, k)
      ensures AllSpellable(v, EmitTypes(MoreTypes(head, tail), separator, k))
    {
      assert AllSpellable(v, Tok(separator, EmitTypes(tail, separator, k)));
    }
  }

  lemma TypeNameSpells(v: Version, name: string)
    requires Spellable(v, Identifier(name))
    ensures SpellsType(v, TypeName(name))
  {
    hide Spellable;
  }

  lemma GenericSpells(v: Version, name: string, args: Types)
    requires Spellable(v, Identifier(name)) && SpellsTypes(v, args)
    ensures SpellsType(v, Generic(name, args))
  {
    hide Spellable;
    FixedSpell(v);
    forall k | AllSpellable(v, k)
      ensures AllSpellable(v, EmitType(Generic(name, args), k))
    {
      assert AllSpellable(v, EmitTypes(args, Sign(Comma), Tok(Sign(Greater), k)));
    }
  }

  lemma OptionalSpells(v: Version, inner: Type)
    requires SpellsType(v, inner) && Spellable(v, Sign(Question))
    ensures SpellsType(v, Optional(inner))
  {
    hide Spellable;
    forall k | AllSpellable(v, k)
      ensures AllSpellable(v, EmitType(Optional(inner), k))
    {
      assert AllSpellable(v, Tok(Sign(Question), k));
    }
  }

  lemma UnionSpells(v: Version, types: Types)
    requires SpellsTypes(v, types)
    ensures Spellable(v, Sign(Pipe)) ==> SpellsType(v, Union(types))
    ensures Spellable(v, Sign(Ampersand)) ==> SpellsType(v, Intersection(types))
  {
    hide Spellable;
    forall k | AllSpellable(v, k)
      ensures Spellable(v, Sign(Pipe)) ==> AllSpellable(v, EmitType(Union(types), k))
      ensures Spellable(v, Sign(Ampersand)) ==> AllSpellable(v, EmitType(Intersection(types), k))
    {
      assert Spellable(v, Sign(Pipe)) ==> AllSpellable(v, EmitTypes(types, Sign(Pipe), k));
      assert Spellable(v, Sign(Ampersand)) ==> AllSpellable(v, EmitTypes(types, Sign(Ampersand), k));
    }
  }

  lemma ParenTypeSpells(v: Version, inner: Type)
    requires SpellsType(v, inner)
    ensures SpellsType(v, ParenType(inner))
  {
    hide Spellable;
    FixedSpell(v);
    forall k | AllSpellable(v, k)
      ensures AllSpellable(v, EmitType(ParenType(inner), k))
    {
      assert AllSpellable(v, EmitType(inner, Tok(Sign(RightParen), k)));
    }
  }

  lemma {:induction false} ParsedTypeSpells(v: Version, ts: Tokens)
    requires AllSpellable(v, ts) && ParseType(ts).Ok?
    ensures SpellsType(v, ParseType(ts).value) && AllSpellable(v, ParseType(ts).rest)
    decreases Size(ts), 4
  {
    hide SpellsType, SpellsTypes, Spellable, ParseIntersection, ParseUnionTail;
    var first := ParseIntersection(ts);
    ParsedIntersectionSpells(v, ts);
    if AtSign(first.rest, Pipe) {
      ParsedUnionTailSpells(v, first.rest);
      var more := ParseUnionTail(first.rest).value;
      TypesSpell(v, first.value, more);
      UnionSpells(v, MoreTypes(first.value, more));
    }
  }

  lemma {:induction false} ParsedUnionTailSpells(v: Version, ts: Tokens)
    requires AllSpellable(v, ts) && ParseUnionTail(ts).Ok?
    ensures SpellsTypes(v, ParseUnionTail(ts).value) && AllSpellable(v, ParseUnionTail(ts).rest)
    decreases Size(ts), 0
  {
    hide SpellsType, SpellsTypes, Spellable, ParseIntersection;
    EmptySpells(v);
    if AtSign(ts, Pipe) {
      var next := ParseIntersection(ts.tail);
      ParsedIntersectionSpells(v, ts.tail);
      ParsedUnionTailSpells(v, next.rest);
      TypesSpell(v, next.value, ParseUnionTail(next.rest).value);
    }
  }

  lemma {:induction false} ParsedIntersectionSpells(v: Version, ts: Tokens)
    requires AllSpellable(v, ts) && ParseIntersection(ts).Ok?
    ensures SpellsType(v, ParseIntersection(ts).value) && AllSpellable(v, ParseIntersection(ts).rest)
    decreases Size(ts), 3
  {
    hide SpellsType, SpellsTypes, Spellable, ParsePostfixType, ParseIntersectionTail;
    var first := ParsePostfixType(ts);
    ParsedPostfixSpells(v, ts);
    if AtSign(first.rest, Ampersand) {
      ParsedIntersectionTailSpells(v, first.rest);
      var more := ParseIntersectionTail(first.rest).value;
      TypesSpell(v, first.value, more);
      UnionSpells(v, MoreTypes(first.value, more));
    }
  }

  lemma {:induction false} ParsedIntersectionTailSpells(v: Version, ts: Tokens)
    requires AllSpellable(v, ts) && ParseIntersectionTail(ts).Ok?
    ensures SpellsTypes(v, ParseIntersectionTail(ts).value) && AllSpellable(v, ParseIntersectionTail(ts).rest)
    decreases Size(ts), 0
  {
    hide SpellsType, SpellsTypes, Spellable, ParsePostfixType;
    EmptySpells(v);
    if AtSign(ts, Ampersand) {
      var next := ParsePostfixType(ts.tail);
      ParsedPostfixSpells(v, ts.tail);
      ParsedIntersectionTailSpells(v, next.rest);
      TypesSpell(v, next.value, ParseIntersectionTail(next.rest).value);
    }
  }

  lemma {:induction false} ParsedPostfixSpells(v: Version, ts: Tokens)
    requires AllSpellable(v, ts) && ParsePostfixType(ts).Ok?
    ensures SpellsType(v, ParsePostfixType(ts).value) && AllSpellable(v, ParsePostfixType(ts).rest)
    decreases Size(ts), 2
  {
    hide SpellsType, Spellable, ParsePrimaryType, ParseQuestions;
    var primary := ParsePrimaryType(ts);
    ParsedPrimaryTypeSpells(v, ts);
    ParsedQuestionsSpell(v, primary.value, primary.rest);
  }

  lemma {:induction false} ParsedQuestionsSpell(v: Version, t: Type, ts: Tokens)
    requires SpellsType(v, t) && AllSpellable(v, ts)
    ensures SpellsType(v, ParseQuestions(t, ts).value) && AllSpellable(v, ParseQuestions(t, ts).rest)
    decreases ts
  {
    hide SpellsType, Spellable;
    if AtSign(ts, Question) {
      OptionalSpells(v, t);
      ParsedQuestionsSpell(v, Optional(t), ts.tail);
    }
  }

  lemma {:induction false} ParsedPrimaryTypeSpells(v: Version, ts: Tokens)
    requires AllSpellable(v, ts) && ParsePrimaryType(ts).Ok?
    ensures SpellsType(v, ParsePrimaryType(ts).value) && AllSpellable(v, ParsePrimaryType(ts).rest)
    decreases Size(ts), 1
  {
    hide SpellsType, SpellsTypes, Spellable, ParseType, ParseTypeArgs;
    if AtName(ts) {
      TypeNameSpells(v, ts.head.name);
      if NextSign(ts, Less) {
        ParsedTypeArgsSpell(v, ts.tail.tail);
        GenericSpells(v, ts.head.name, ParseTypeArgs(ts.tail.tail).value);
      }
    } else {
      ParsedTypeSpells(v, ts.tail);
      ParenTypeSpells(v, ParseType(ts.tail).value);
    }
  }

  lemma ClosedAngleSpells(v: Version, ts: Tokens)
    requires AllSpellable(v, ts) && CloseAngle(ts).Ok?
    ensures AllSpellable(v, CloseAngle(ts).rest)
  {
    hide Spellable;
    FixedSpell(v);
  }

  lemma {:induction false} ParsedTypeArgsSpell(v: Version, ts: Tokens)
    requires AllSpellable(v, ts) && ParseTypeArgs(ts).Ok?
    ensures SpellsTypes(v, ParseTypeArgs(ts).value) && AllSpellable(v, ParseTypeArgs(ts).rest)
    decreases Size(ts), 5
  {
    hide SpellsType, SpellsTypes, Spellable, ParseType, CloseAngle;
    EmptySpells(v);
    if AtSign(ts, Greater) || AtSign(ts, ShiftRight) || AtSign(ts, GreaterEqual) {
      AngleCloses(ts);
      ClosedAngleSpells(v, ts);
    } else {
      var first := ParseType(ts);
      ParsedTypeSpells(v, ts);
      if AtSign(first.rest, Comma) {
        ParsedTypeArgsSpell(v, first.rest.tail);
        TypesSpell(v, first.value, ParseTypeArgs(first.rest.tail).value);
      } else {
        ClosedAngleSpells(v, first.rest);
        TypesSpell(v, first.value, NoTypes);
      }
    }
  }

  lemma AngleCloses(ts: Tokens)
    requires AtSign(ts, Greater) || AtSign(ts, ShiftRight) || AtSign(ts, GreaterEqual)
    ensures CloseAngle(ts).Ok?
  {
  }

  // ----- expressions -----

  /** What stands for itself. */
  function LeafToken(e: Expr): Option<Token> {
    match e
    case Nil => Some(Word(KwNil))
    case False => Some(Word(KwFalse))
    case True => Some(Word(KwTrue))
    case VarArg => Some(Sign(DotDotDot))
    case Number(text) => Some(Numeral(text))
    case StringLit(text) => Some(Quoted(text))
    case Name(name) => Some(Identifier(name))
    case PlainInterp(text) => Some(InterpWhole(text))
    case _ => None
  }

  lemma LeafSpells(v: Version, e: Expr)
    requires LeafToken(e).Some? && Spellable(v, LeafToken(e).value)
    ensures Spells(v, e)
  {
    hide Spellable;
    forall k | AllSpellable(v, k)
      ensures AllSpellable(v, EmitExpr(e, k))
    {
      assert EmitExpr(e, k) == Tok(LeafToken(e).value, k);
    }
  }

  lemma FunctionSpells(v: Version, body: Body)
    requires SpellsBody(v, body)
    ensures Spells(v, FunctionDef(body))
  {
    hide Spellable;
    FixedSpell(v);
    forall k | AllSpellable(v, k)
      ensures AllSpellable(v, EmitExpr(FunctionDef(body), k))
    {
      assert AllSpellable(v, EmitBody(body, k));
    }
  }

  /** The tokens of the composite expressions. */
  lemma Shape(e: Expr, k: Tokens)
    ensures e.Index? ==>
              EmitExpr(e, k) == EmitExpr(e.prefix,
                                         Tok(Sign(LeftBracket), EmitExpr(e.index, Tok(Sign(RightBracket), k))))
    ensures e.Binary? ==> EmitExpr(e, k) == EmitExpr(e.left, Tok(BinToken(e.op), EmitExpr(e.right, k)))
    ensures e.Unary? ==> EmitExpr(e, k) == Tok(UnToken(e.unop), EmitExpr(e.operand, k))
    ensures e.Cast? ==> EmitExpr(e, k) == EmitExpr(e.expr, Tok(Sign(DoubleColon), EmitType(e.annotation, k)))
    ensures e.Paren? ==> EmitExpr(e, k) == Tok(Sign(LeftParen), EmitExpr(e.inner, Tok(Sign(RightParen), k)))
    ensures e.FieldAccess? ==> EmitExpr(e, k) == EmitExpr(e.prefix, Tok(Sign(Dot), Tok(Identifier(e.name), k)))
    ensures e.Call? ==> EmitExpr(e, k) == EmitExpr(e.callee, EmitMethod(e.selector, EmitArgs(e.args, k)))
    ensures e.IfExpr? ==>
              EmitExpr(e, k)
              == Tok(Word(KwIf), EmitExpr(e.condition, Tok(Word(KwThen), EmitExpr(e.thenExpr, EmitArms(e.arms, k)))))
    ensures e.Table? ==> EmitExpr(e, k) == EmitArgs(TableArg(e.fields), k)
  {
    hide EmitType, EmitArms, EmitMethod, EmitFields, BinToken, UnToken;
  }

  lemma FieldSpells(v: Version, prefix: Expr, name: string)
    requires Spells(v, prefix) && Spellable(v, Identifier(name))
    ensures Spells(v, FieldAccess(prefix, name))
  {
    hide EmitExpr, Spellable;
    FixedSpell(v);
    forall k | AllSpellable(v, k)
      ensures AllSpellable(v, EmitExpr(FieldAccess(prefix, name), k))
    {
      Shape(FieldAccess(prefix, name), k);
      assert AllSpellable(v, Tok(Sign(Dot), Tok(Identifier(name), k)));
    }
  }

  lemma IndexSpells(v: Version, prefix: Expr, index: Expr)
    requires Spells(v, prefix) && Spells(v, index)
    ensures Spells(v, Index(prefix, index))
  {
    hide EmitExpr, Spellable;
    FixedSpell(v);
    forall k | AllSpellable(v, k)
      ensures AllSpellable(v, EmitExpr(Index(prefix, index), k))
    {
      Shape(Index(prefix, index), k);
      assert AllSpellable(v, EmitExpr(index, Tok(Sign(RightBracket), k)));
      assert AllSpellable(v, Tok(Sign(LeftBracket), EmitExpr(index, Tok(Sign(RightBracket), k))));
    }
  }

  lemma SelectorSpells(v: Version, selector: Option<string>, k: Tokens)
    requires SpellsSelector(v, selector) && AllSpellable(v, k)
    ensures AllSpellable(v, EmitMethod(selector, k))
  {
    hide Spellable;
    FixedSpell(v);
  }

  lemma CallSpells(v: Version, callee: Expr, selector: Option<string>, args: Args)
    requires Spells(v, callee) && SpellsSelector(v, selector) && SpellsArgs(v, args)
    ensures Spells(v, Call(callee, selector, args))
  {
    hide EmitExpr, Spellable, EmitMethod;
    forall k | AllSpellable(v, k)
      ensures AllSpellable(v, EmitExpr(Call(callee, selector, args), k))
    {
      Shape(Call(callee, selector, args), k);
      SelectorSpells(v, selector, EmitArgs(args, k));
    }
  }

  lemma ParenSpells(v: Version, inner: Expr)
    requires Spells(v, inner)
    ensures Spells(v, Paren(inner))
  {
    hide EmitExpr, Spellable;
    FixedSpell(v);
    forall k | AllSpellable(v, k)
      ensures AllSpellable(v, EmitExpr(Paren(inner), k))
    {
      Shape(Paren(inner), k);
      assert AllSpellable(v, EmitExpr(inner, Tok(Sign(RightParen), k)));
    }
  }

  lemma TableSpells(v: Version, fields: Fields)
    requires SpellsFields(v, fields)
    ensures Spells(v, Table(fields)) && SpellsArgs(v, TableArg(fields))
  {
    hide Spellable, EmitExpr;
    FixedSpell(v);
    forall k | AllSpellable(v, k)
      ensures AllSpellable(v, EmitExpr(Table(fields), k)) && AllSpellable(v, EmitArgs(TableArg(fields), k))
    {
      Shape(Table(fields), k);
      assert AllSpellable(v, EmitFields(fields, Tok(Sign(RightBrace), k)));
      assert EmitArgs(TableArg(fields), k) == EmitTable(fields, k);
    }
  }

  lemma BinarySpells(v: Version, left: Expr, op: BinOp, right: Expr)
    requires Spells(v, left) && Spellable(v, BinToken(op)) && Spells(v, right)
    ensures Spells(v, Binary(left, op, right))
  {
    hide EmitExpr, Spellable, BinToken;
    forall k | AllSpellable(v, k)
      ensures AllSpellable(v, EmitExpr(Binary(left, op, right), k))
    {
      Shape(Binary(left, op, right), k);
      assert AllSpellable(v, Tok(BinToken(op), EmitExpr(right, k)));
    }
  }

  lemma UnarySpells(v: Version, op: UnOp, operand: Expr)
    requires Spellable(v, UnToken(op)) && Spells(v, operand)
    ensures Spells(v, Unary(op, operand))
  {
    hide EmitExpr, Spellable, UnToken;
    forall k | AllSpellable(v, k)
      ensures AllSpellable(v, EmitExpr(Unary(op, operand), k))
    {
      Shape(Unary(op, operand), k);
      assert AllSpellable(v, EmitExpr(operand, k));
    }
  }

  lemma IfSpells(v: Version, condition: Expr, thenExpr: Expr, arms: ExprArms)
    requires Spells(v, condition) && Spells(v, thenExpr) && SpellsArms(v, arms)
    ensures Spells(v, IfExpr(condition, thenExpr, arms))
  {
    hide EmitExpr, Spellable;
    FixedSpell(v);
    forall k | AllSpellable(v, k)
      ensures AllSpellable(v, EmitExpr(IfExpr(condition, thenExpr, arms), k))
    {
      Shape(IfExpr(condition, thenExpr, arms), k);
      assert AllSpellable(v, EmitExpr(thenExpr, EmitArms(arms, k)));
      assert AllSpellable(v, Tok(Word(KwThen), EmitExpr(thenExpr, EmitArms(arms, k))));
    }
  }

  lemma InterpSpells(v: Version, text: string, holes: Holes)
    requires Spellable(v, InterpBegin(text)) && SpellsHoles(v, holes)
    ensures Spells(v, Interp(text, holes))
  {
    hide Spellable;
    forall k | AllSpellable(v, k)
      ensures AllSpellable(v, EmitExpr(Interp(text, holes), k))
    {
      assert AllSpellable(v, EmitHoles(holes, k));
    }
  }

  lemma CastSpells(v: Version, expr: Expr, annotation: Type)
    requires Spells(v, expr) && SpellsType(v, annotation)
    ensures Spells(v, Cast(expr, annotation))
  {
    hide EmitExpr, Spellable;
    FixedSpell(v);
    forall k | AllSpellable(v, k)
      ensures AllSpellable(v, EmitExpr(Cast(expr, annotation), k))
    {
      Shape(Cast(expr, annotation), k);
      assert AllSpellable(v, Tok(Sign(DoubleColon), EmitType(annotation, k)));
    }
  }

  lemma ExprsSpell(v: Version, head: Expr, tail: Exprs)
    requires Spells(v, head) && SpellsAll(v, tail)
    ensures SpellsAll(v, MoreExprs(head, tail))
  {
    hide EmitExpr, Spellable;
    FixedSpell(v);
    forall k | AllSpellable(v, k)
      ensures AllSpellable(v, EmitExprs(MoreExprs(head, tail), k))
    {
      assert AllSpellable(v, Tok(Sign(Comma), EmitExprs(tail, k)));
    }
  }

  lemma ArgsSpell(v: Version, exprs: Exprs)
    requires SpellsAll(v, exprs)
    ensures SpellsArgs(v, ParenArgs(exprs))
  {
    hide Spellable;
    FixedSpell(v);
    forall k | AllSpellable(v, k)
      ensures AllSpellable(v, EmitArgs(ParenArgs(exprs), k))
    {
      assert AllSpellable(v, EmitExprs(exprs, Tok(Sign(RightParen), k)));
    }
  }

  lemma StringArgSpells(v: Version, text: string)
    requires Spellable(v, Quoted(text))
    ensures SpellsArgs(v, StringArg(text))
  {
    hide Spellable;
  }

  lemma FieldsSpell(v: Version, head: Field, tail: Fields)
    requires SpellsField(v, head) && SpellsFields(v, tail)
    ensures SpellsFields(v, MoreFields(head, tail))
  {
    hide Spellable;
    FixedSpell(v);
    forall k | AllSpellable(v, k)
      ensures AllSpellable(v, EmitFields(MoreFields(head, tail), k))
    {
      assert AllSpellable(v, Tok(Sign(Comma), EmitFields(tail, k)));
    }
  }

  lemma BracketedShape(key: Expr, value: Expr, k: Tokens)
    ensures EmitField(Bracketed(key, value), k)
         == Tok(Sign(LeftBracket), EmitExpr(key, Tok(Sign(RightBracket), Tok(Sign(Equal), EmitExpr(value, k)))))
  {
    hide EmitExpr;
  }

  lemma BracketedSpells(v: Version, key: Expr, value: Expr)
    requires Spells(v, key) && Spells(v, value)
    ensures SpellsField(v, Bracketed(key, value))
  {
    hide Spellable, EmitExpr, EmitField;
    FixedSpell(v);
    forall k | AllSpellable(v, k)
      ensures AllSpellable(v, EmitField(Bracketed(key, value), k))
    {
      BracketedShape(key, value, k);
      var after := Tok(Sign(Equal), EmitExpr(value, k));
      assert AllSpellable(v, after);
      assert AllSpellable(v, Tok(Sign(RightBracket), after));
      assert AllSpellable(v, EmitExpr(key, Tok(Sign(RightBracket), after)));
    }
  }

  lemma NamedSpells(v: Version, name: string, value: Expr)
    requires Spellable(v, Identifier(name)) && Spells(v, value)
    ensures SpellsField(v, Named(name, value))
  {
    hide EmitExpr, Spellable;
    FixedSpell(v);
    forall k | AllSpellable(v, k)
      ensures AllSpellable(v, EmitField(Named(name, value), k))
    {
      assert AllSpellable(v, EmitExpr(value, k));
    }
  }

  lemma PositionalSpells(v: Version, value: Expr)
    requires Spells(v, value)
    ensures SpellsField(v, Positional(value))
  {
    hide EmitExpr, Spellable;
    forall k | AllSpellable(v, k)
      ensures AllSpellable(v, EmitField(Positional(value), k))
    {
      assert AllSpellable(v, EmitExpr(value, k));
    }
  }

  lemma ElseExprSpells(v: Version, expr: Expr)
    requires Spells(v, expr)
    ensures SpellsArms(v, ElseExpr(expr))
  {
    hide EmitExpr, Spellable;
    FixedSpell(v);
    forall k | AllSpellable(v, k)
      ensures AllSpellable(v, EmitArms(ElseExpr(expr), k))
    {
      assert AllSpellable(v, EmitExpr(expr, k));
    }
  }

  lemma ElseIfExprShape(condition: Expr, expr: Expr, rest: ExprArms, k: Tokens)
    ensures EmitArms(ElseIfExpr(condition, expr, rest), k)
         == Tok(Word(KwElseIf), EmitExpr(condition, Tok(Word(KwThen), EmitExpr(expr, EmitArms(rest, k)))))
  {
    hide EmitExpr;
  }

  lemma ElseIfExprSpells(v: Version, condition: Expr, expr: Expr, rest: ExprArms)
    requires Spells(v, condition) && Spells(v, expr) && SpellsArms(v, rest)
    ensures SpellsArms(v, ElseIfExpr(condition, expr, rest))
  {
    hide Spellable, EmitExpr, EmitArms;
    FixedSpell(v);
    forall k | AllSpellable(v, k)
      ensures AllSpellable(v, EmitArms(ElseIfExpr(condition, expr, rest), k))
    {
      ElseIfExprShape(condition, expr, rest, k);
      var after := EmitExpr(expr, EmitArms(rest, k));
      assert AllSpellable(v, after);
      assert AllSpellable(v, Tok(Word(KwThen), after));
      assert AllSpellable(v, EmitExpr(condition, Tok(Word(KwThen), after)));
    }
  }

  lemma LastHoleSpells(v: Version, expr: Expr, text: string)
    requires Spells(v, expr) && Spellable(v, InterpEnd(text))
    ensures SpellsHoles(v, LastHole(expr, text))
  {
    hide EmitExpr, Spellable;
    forall k | AllSpellable(v, k)
      ensures AllSpellable(v, EmitHoles(LastHole(expr, text), k))
    {
      assert AllSpellable(v, Tok(InterpEnd(text), k));
    }
  }

  lemma MoreHolesSpell(v: Version, expr: Expr, text: string, rest: Holes)
    requires Spells(v, expr) && Spellable(v, InterpMid(text)) && SpellsHoles(v, rest)
    ensures SpellsHoles(v, MoreHoles(expr, text, rest))
  {
    hide EmitExpr, Spellable;
    forall k | AllSpellable(v, k)
      ensures AllSpellable(v, EmitHoles(MoreHoles(expr, text, rest), k))
    {
      assert AllSpellable(v, Tok(InterpMid(text), EmitHoles(rest, k)));
    }
  }

  lemma {:induction false} ParsedExprSpells(v: Version, min: nat, ts: Tokens)
    requires AllSpellable(v, ts) && ParseExpr(v, min, ts).Ok?
    ensures Spells(v, ParseExpr(v, min, ts).value) && AllSpellable(v, ParseExpr(v, min, ts).rest)
    decreases Size(ts), 5
  {
    hide Spells, SpellsAll, SpellsArgs, SpellsFields, SpellsField, SpellsArms, SpellsHoles, SpellsBody, SpellsType,
         Spellable, ParsePrefix, ParseOperators;
    var left := ParsePrefix(v, ts);
    ParsedPrefixSpells(v, ts);
    ParsedOperatorsSpell(v, left.value, min, left.rest);
  }

  lemma {:induction false} ParsedOperatorsSpell(v: Version, left: Expr, min: nat, ts: Tokens)
    requires AllSpellable(v, ts) && Spells(v, left) && ParseOperators(v, left, min, ts).Ok?
    ensures Spells(v, ParseOperators(v, left, min, ts).value) && AllSpellable(v, ParseOperators(v, left, min, ts).rest)
    decreases Size(ts), 0
  {
    hide Spells, SpellsAll, SpellsArgs, SpellsFields, SpellsField, SpellsArms, SpellsHoles, SpellsBody, SpellsType,
         Spellable, ParseExpr, BinOpOf, BinToken, RightMinimum, Precedence;
    if Binds(v, min, ts) {
      var op := BinOpOf(ts.head).value;
      var right := ParseExpr(v, RightMinimum(op), ts.tail);
      ParsedExprSpells(v, RightMinimum(op), ts.tail);
      BinarySpells(v, left, op, right.value);
      ParsedOperatorsSpell(v, Binary(left, op, right.value), min, right.rest);
    }
  }

  lemma {:induction false} ParsedPrefixSpells(v: Version, ts: Tokens)
    requires AllSpellable(v, ts) && ParsePrefix(v, ts).Ok?
    ensures Spells(v, ParsePrefix(v, ts).value) && AllSpellable(v, ParsePrefix(v, ts).rest)
    decreases Size(ts), 4
  {
    hide Spells, SpellsAll, SpellsArgs, SpellsFields, SpellsField, SpellsArms, SpellsHoles, SpellsBody, SpellsType,
         Spellable, ParseExpr, ParsePrimary, ParseAssertion, UnOpOf, UnToken;
    if ts.Tok? && UnOpOf(ts.head).Some? {
      ParsedExprSpells(v, UNARY_PRECEDENCE, ts.tail);
      UnarySpells(v, UnOpOf(ts.head).value, ParseExpr(v, UNARY_PRECEDENCE, ts.tail).value);
    } else {
      var primary := ParsePrimary(v, ts);
      ParsedPrimarySpells(v, ts);
      ParsedAssertionSpells(v, primary.value, primary.rest);
    }
  }

  lemma {:induction false} ParsedAssertionSpells(v: Version, e: Expr, ts: Tokens)
    requires AllSpellable(v, ts) && Spells(v, e) && ParseAssertion(v, e, ts).Ok?
    ensures Spells(v, ParseAssertion(v, e, ts).value) && AllSpellable(v, ParseAssertion(v, e, ts).rest)
    decreases Size(ts), 0
  {
    hide Spells, SpellsAll, SpellsArgs, SpellsFields, SpellsField, SpellsArms, SpellsHoles, SpellsBody, SpellsType,
         Spellable, ParseType;
    if v.Luau? && AtSign(ts, DoubleColon) {
      ParsedTypeSpells(v, ts.tail);
      CastSpells(v, e, ParseType(ts.tail).value);
    }
  }

  lemma {:induction false} ParsedPrimarySpells(v: Version, ts: Tokens)
    requires AllSpellable(v, ts) && ParsePrimary(v, ts).Ok?
    ensures Spells(v, ParsePrimary(v, ts).value) && AllSpellable(v, ParsePrimary(v, ts).rest)
    decreases Size(ts), 3
  {
    hide Spells, SpellsAll, SpellsArgs, SpellsFields, SpellsField, SpellsArms, SpellsHoles, SpellsBody, SpellsType,
         Spellable, ParseSuffixes, ParseHoles, ParseWordPrimary, ParseFields, ParseExpr;
    if ts.head.Identifier? {
      LeafSpells(v, Name(ts.head.name));
      ParsedSuffixesSpell(v, Name(ts.head.name), ts.tail);
    } else if ts.head.InterpBegin? {
      ParsedHolesSpell(v, ts.tail);
      InterpSpells(v, ts.head.text, ParseHoles(v, ts.tail).value);
    } else if ts.head.Word? {
      ParsedWordPrimarySpells(v, ts.head.keyword, ts);
    } else if ts.head == Sign(LeftBrace) {
      ParsedFieldsSpell(v, ts.tail);
      TableSpells(v, ParseFields(v, ts.tail).value);
    } else if ts.head == Sign(LeftParen) {
      var inner := ParseExpr(v, 0, ts.tail);
      ParsedExprSpells(v, 0, ts.tail);
      ParenSpells(v, inner.value);
      ParsedSuffixesSpell(v, Paren(inner.value), inner.rest.tail);
    } else {
      LeafSpells(v, ParsePrimary(v, ts).value);
    }
  }

  lemma {:induction false} ParsedWordPrimarySpells(v: Version, w: Keyword, ts: Tokens)
    requires AllSpellable(v, ts) && ts.Tok? && ts.head == Word(w) && ParseWordPrimary(v, w, ts).Ok?
    ensures Spells(v, ParseWordPrimary(v, w, ts).value) && AllSpellable(v, ParseWordPrimary(v, w, ts).rest)
    decreases Size(ts), 2
  {
    hide Spells, SpellsAll, SpellsArgs, SpellsFields, SpellsField, SpellsArms, SpellsHoles, SpellsBody, SpellsType,
         Spellable, ParseBody, ParseIfExpr;
    if w.KwFunction? {
      ParsedBodySpells(v, ts.tail);
      FunctionSpells(v, ParseBody(v, ts.tail).value);
    } else if w.KwIf? {
      ParsedIfSpells(v, ts.tail);
    } else {
      LeafSpells(v, ParseWordPrimary(v, w, ts).value);
    }
  }

  lemma {:induction false} ParsedIfSpells(v: Version, ts: Tokens)
    requires AllSpellable(v, ts) && ParseIfExpr(v, ts).Ok?
    ensures Spells(v, ParseIfExpr(v, ts).value) && AllSpellable(v, ParseIfExpr(v, ts).rest)
    decreases Size(ts), 6
  {
    hide Spells, SpellsAll, SpellsArgs, SpellsFields, SpellsField, SpellsArms, SpellsHoles, SpellsBody, SpellsType,
         Spellable, ParseExpr, ParseArms;
    var condition := ParseExpr(v, 0, ts);
    ParsedExprSpells(v, 0, ts);
    var thenExpr := ParseExpr(v, 0, condition.rest.tail);
    ParsedExprSpells(v, 0, condition.rest.tail);
    ParsedArmsSpell(v, thenExpr.rest);
    IfSpells(v, condition.value, thenExpr.value, ParseArms(v, thenExpr.rest).value);
  }

  lemma {:induction false} ParsedArmsSpell(v: Version, ts: Tokens)
    requires AllSpellable(v, ts) && ParseArms(v, ts).Ok?
    ensures SpellsArms(v, ParseArms(v, ts).value) && AllSpellable(v, ParseArms(v, ts).rest)
    decreases Size(ts), 0
  {
    hide Spells, SpellsAll, SpellsArgs, SpellsFields, SpellsField, SpellsArms, SpellsHoles, SpellsBody, SpellsType,
         Spellable, ParseExpr;
    ParsedExprSpells(v, 0, ts.tail);
    var first := ParseExpr(v, 0, ts.tail);
    if AtWord(ts, KwElseIf) {
      var expr := ParseExpr(v, 0, first.rest.tail);
      ParsedExprSpells(v, 0, first.rest.tail);
      ParsedArmsSpell(v, expr.rest);
      ElseIfExprSpells(v, first.value, expr.value, ParseArms(v, expr.rest).value);
    } else {
      ElseExprSpells(v, first.value);
    }
  }

  lemma {:induction false} ParsedHolesSpell(v: Version, ts: Tokens)
    requires AllSpellable(v, ts) && ParseHoles(v, ts).Ok?
    ensures SpellsHoles(v, ParseHoles(v, ts).value) && AllSpellable(v, ParseHoles(v, ts).rest)
    decreases Size(ts), 6
  {
    hide Spells, SpellsAll, SpellsArgs, SpellsFields, SpellsField, SpellsArms, SpellsHoles, SpellsBody, SpellsType,
         Spellable, ParseExpr;
    var expr := ParseExpr(v, 0, ts);
    ParsedExprSpells(v, 0, ts);
    if expr.rest.head.InterpMid? {
      ParsedHolesSpell(v, expr.rest.tail);
      MoreHolesSpell(v, expr.value, expr.rest.head.text, ParseHoles(v, expr.rest.tail).value);
    } else {
      LastHoleSpells(v, expr.value, expr.rest.head.text);
    }
  }

  lemma {:induction false} ParsedSuffixesSpell(v: Version, e: Expr, ts: Tokens)
    requires AllSpellable(v, ts) && Spells(v, e) && ParseSuffixes(v, e, ts).Ok?
    ensures Spells(v, ParseSuffixes(v, e, ts).value) && AllSpellable(v, ParseSuffixes(v, e, ts).rest)
    decreases Size(ts), 1
  {
    hide Spells, SpellsAll, SpellsArgs, SpellsFields, SpellsField, SpellsArms, SpellsHoles, SpellsBody, SpellsType,
         Spellable, ParseExpr, ParseArgs;
    if AtSign(ts, Dot) {
      FieldSpells(v, e, ts.tail.head.name);
      ParsedSuffixesSpell(v, FieldAccess(e, ts.tail.head.name), ts.tail.tail);
    } else if AtSign(ts, LeftBracket) {
      var index := ParseExpr(v, 0, ts.tail);
      ParsedExprSpells(v, 0, ts.tail);
      IndexSpells(v, e, index.value);
      ParsedSuffixesSpell(v, Index(e, index.value), index.rest.tail);
    } else if AtSign(ts, Colon) {
      var args := ParseArgs(v, ts.tail.tail);
      ParsedArgsSpell(v, ts.tail.tail);
      CallSpells(v, e, Some(ts.tail.head.name), args.value);
      ParsedSuffixesSpell(v, Call(e, Some(ts.tail.head.name), args.value), args.rest);
    } else if ts.Tok? && StartsArgs(ts.head) {
      var args := ParseArgs(v, ts);
      ParsedArgsSpell(v, ts);
      CallSpells(v, e, None, args.value);
      ParsedSuffixesSpell(v, Call(e, None, args.value), args.rest);
    }
  }

  lemma {:induction false} ParsedArgsSpell(v: Version, ts: Tokens)
    requires AllSpellable(v, ts) && ParseArgs(v, ts).Ok?
    ensures SpellsArgs(v, ParseArgs(v, ts).value) && AllSpellable(v, ParseArgs(v, ts).rest)
    decreases Size(ts), 0
  {
    hide Spells, SpellsAll, SpellsArgs, SpellsFields, SpellsField, SpellsArms, SpellsHoles, SpellsBody, SpellsType,
         Spellable, ParseExprs, ParseFields;
    EmptySpells(v);
    if AtSign(ts, LeftParen) {
      if AtSign(ts.tail, RightParen) {
        ArgsSpell(v, NoExprs);
      } else {
        ParsedExprsSpell(v, ts.tail);
        ArgsSpell(v, ParseExprs(v, ts.tail).value);
      }
    } else if AtSign(ts, LeftBrace) {
      ParsedFieldsSpell(v, ts.tail);
      TableSpells(v, ParseFields(v, ts.tail).value);
    } else {
      StringArgSpells(v, ts.head.text);
    }
  }

  lemma {:induction false} ParsedExprsSpell(v: Version, ts: Tokens)
    requires AllSpellable(v, ts) && ParseExprs(v, ts).Ok?
    ensures SpellsAll(v, ParseExprs(v, ts).value) && AllSpellable(v, ParseExprs(v, ts).rest)
    decreases Size(ts), 6
  {
    hide Spells, SpellsAll, SpellsArgs, SpellsFields, SpellsField, SpellsArms, SpellsHoles, SpellsBody, SpellsType,
         Spellable, ParseExpr;
    EmptySpells(v);
    var first := ParseExpr(v, 0, ts);
    ParsedExprSpells(v, 0, ts);
    if AtSign(first.rest, Comma) {
      ParsedExprsSpell(v, first.rest.tail);
      ExprsSpell(v, first.value, ParseExprs(v, first.rest.tail).value);
    } else {
      ExprsSpell(v, first.value, NoExprs);
    }
  }

  lemma {:induction false} ParsedFieldsSpell(v: Version, ts: Tokens)
    requires AllSpellable(v, ts) && ParseFields(v, ts).Ok?
    ensures SpellsFields(v, ParseFields(v, ts).value) && AllSpellable(v, ParseFields(v, ts).rest)
    decreases Size(ts), 7
  {
    hide Spells, SpellsAll, SpellsArgs, SpellsFields, SpellsField, SpellsArms, SpellsHoles, SpellsBody, SpellsType,
         Spellable, ParseField;
    EmptySpells(v);
    if !AtSign(ts, RightBrace) {
      var field := ParseField(v, ts);
      ParsedFieldSpells(v, ts);
      if AtSign(field.rest, Comma) || AtSign(field.rest, Semicolon) {
        ParsedFieldsSpell(v, field.rest.tail);
        FieldsSpell(v, field.value, ParseFields(v, field.rest.tail).value);
      } else {
        FieldsSpell(v, field.value, NoFields);
      }
    }
  }

  lemma {:induction false} ParsedFieldSpells(v: Version, ts: Tokens)
    requires AllSpellable(v, ts) && ParseField(v, ts).Ok?
    ensures SpellsField(v, ParseField(v, ts).value) && AllSpellable(v, ParseField(v, ts).rest)
    decreases Size(ts), 6
  {
    hide Spells, SpellsAll, SpellsArgs, SpellsFields, SpellsField, SpellsArms, SpellsHoles, SpellsBody, SpellsType,
         Spellable, ParseExpr;
    if AtSign(ts, LeftBracket) {
      var key := ParseExpr(v, 0, ts.tail);
      ParsedExprSpells(v, 0, ts.tail);
      ParsedExprSpells(v, 0, key.rest.tail.tail);
      BracketedSpells(v, key.value, ParseExpr(v, 0, key.rest.tail.tail).value);
    } else if AtName(ts) && NextSign(ts, Equal) {
      ParsedExprSpells(v, 0, ts.tail.tail);
      NamedSpells(v, ts.head.name, ParseExpr(v, 0, ts.tail.tail).value);
    } else {
      ParsedExprSpells(v, 0, ts);
      PositionalSpells(v, ParseExpr(v, 0, ts).value);
    }
  }

  // ----- statements -----

  lemma NamesSpell(v: Version, head: string, tail: Names)
    requires Spellable(v, Identifier(head)) && SpellsNames(v, tail)
    ensures SpellsNames(v, MoreNames(head, tail))
  {
    hide Spellable;
    forall separator, k | Spellable(v, Sign(separator)) && AllSpellable(v, k)
      ensures AllSpellable(v, EmitNames(MoreNames(head, tail), separator, k))
    {
      assert AllSpellable(v, Tok(Sign(separator), EmitNames(tail, separator, k)));
    }
  }

  lemma BodySpells(v: Version, body: Body)
    requires SpellsNames(v, body.params) && SpellsBlock(v, body.block)
    ensures SpellsBody(v, body)
  {
    hide Spellable;
    FixedSpell(v);
    forall k | AllSpellable(v, k)
      ensures AllSpellable(v, EmitBody(body, k))
    {
      BlockSpells(v, body.block, Tok(Word(KwEnd), k));
      var rest := Tok(Sign(RightParen), EmitBlock(body.block, Tok(Word(KwEnd), k)));
      var dots := if !body.vararg then rest else if body.params.NoNames? then Tok(Sign(DotDotDot), rest)
        else Tok(Sign(Comma), Tok(Sign(DotDotDot), rest));
      assert AllSpellable(v, rest) && AllSpellable(v, dots);
      assert AllSpellable(v, EmitNames(body.params, Comma, dots));
    }
  }

  lemma BlockSpells(v: Version, b: Block, k: Tokens)
    requires SpellsBlock(v, b) && AllSpellable(v, k)
    ensures AllSpellable(v, EmitBlock(b, k))
  {
    hide Spellable, EmitStmts, EmitLast;
  }

  lemma PrependSpells(v: Version, s: Stmt, b: Block)
    requires SpellsStmt(v, s) && SpellsBlock(v, b)
    ensures SpellsBlock(v, Prepend(s, b))
  {
    hide Spellable;
    FixedSpell(v);
    hide EmitStmt, EmitLast, NeedsGuard;
    forall safe, k | AllSpellable(v, k)
      ensures AllSpellable(v, EmitStmts(Prepend(s, b).stmts, safe, EmitLast(b.last, k)))
    {
      var rest := EmitStmts(b.stmts, s.Empty?, EmitLast(b.last, k));
      assert AllSpellable(v, rest) && AllSpellable(v, EmitStmt(s, rest));
      assert AllSpellable(v, Tok(Sign(Semicolon), EmitStmt(s, rest)));
    }
  }

  lemma LastSpells(v: Version, last: Last)
    requires last.Return? ==> SpellsAll(v, last.exprs)
    requires last.Continue? ==> Spellable(v, Identifier("continue"))
    ensures SpellsBlock(v, Block(NoStmts, last))
  {
    hide Spellable;
    FixedSpell(v);
    forall safe, k | AllSpellable(v, k)
      ensures AllSpellable(v, EmitStmts(NoStmts, safe, EmitLast(last, k)))
    {
      if last.Return? {
        assert AllSpellable(v, EmitExprs(last.exprs, k));
      }
    }
  }

  lemma AssignSpells(v: Version, targets: Exprs, values: Exprs)
    requires SpellsAll(v, targets) && SpellsAll(v, values)
    ensures SpellsStmt(v, Assign(targets, values))
  {
    hide Spellable;
    FixedSpell(v);
    forall k | AllSpellable(v, k)
      ensures AllSpellable(v, EmitStmt(Assign(targets, values), k))
    {
      assert AllSpellable(v, Tok(Sign(Equal), EmitExprs(values, k)));
    }
  }

  lemma CallStmtSpells(v: Version, call: Expr)
    requires Spells(v, call)
    ensures SpellsStmt(v, CallStmt(call))
  {
    hide EmitExpr, Spellable;
    forall k | AllSpellable(v, k)
      ensures AllSpellable(v, EmitStmt(CallStmt(call), k))
    {
      assert AllSpellable(v, EmitExpr(call, k));
    }
  }

  lemma CompoundSpells(v: Version, target: Expr, op: CompoundOp, value: Expr)
    requires Spells(v, target) && Spellable(v, CompoundToken(op)) && Spells(v, value)
    ensures SpellsStmt(v, Compound(target, op, value))
  {
    hide EmitExpr, Spellable, CompoundToken;
    forall k | AllSpellable(v, k)
      ensures AllSpellable(v, EmitStmt(Compound(target, op, value), k))
    {
      assert AllSpellable(v, Tok(CompoundToken(op), EmitExpr(value, k)));
    }
  }

  lemma LoopBodySpells(v: Version, block: Block, k: Tokens)
    requires SpellsBlock(v, block) && AllSpellable(v, k)
    ensures AllSpellable(v, EmitLoopBody(block, k))
  {
    hide Spellable;
    FixedSpell(v);
    hide EmitBlock;
    BlockSpells(v, block, Tok(Word(KwEnd), k));
  }

  lemma DoSpells(v: Version, block: Block)
    requires SpellsBlock(v, block)
    ensures SpellsStmt(v, Do(block))
  {
    hide Spellable, EmitLoopBody;
    forall k | AllSpellable(v, k)
      ensures AllSpellable(v, EmitStmt(Do(block), k))
    {
      LoopBodySpells(v, block, k);
    }
  }

  lemma WhileSpells(v: Version, condition: Expr, block: Block)
    requires Spells(v, condition) && SpellsBlock(v, block)
    ensures SpellsStmt(v, While(condition, block))
  {
    hide EmitExpr, Spellable;
    FixedSpell(v);
    hide EmitLoopBody;
    forall k | AllSpellable(v, k)
      ensures AllSpellable(v, EmitStmt(While(condition, block), k))
    {
      LoopBodySpells(v, block, k);
      assert AllSpellable(v, EmitExpr(condition, EmitLoopBody(block, k)));
    }
  }

  lemma RepeatSpells(v: Version, block: Block, condition: Expr)
    requires SpellsBlock(v, block) && Spells(v, condition)
    ensures SpellsStmt(v, Repeat(block, condition))
  {
    hide EmitExpr, Spellable;
    FixedSpell(v);
    hide EmitBlock;
    forall k | AllSpellable(v, k)
      ensures AllSpellable(v, EmitStmt(Repeat(block, condition), k))
    {
      BlockSpells(v, block, Tok(Word(KwUntil), EmitExpr(condition, k)));
    }
  }

  lemma IfStmtSpells(v: Version, condition: Expr, block: Block, arms: StmtArms)
    requires Spells(v, condition) && SpellsBlock(v, block) && SpellsArmsOf(v, arms)
    ensures SpellsStmt(v, If(condition, block, arms)) && SpellsArmsOf(v, ElseIf(condition, block, arms))
  {
    hide EmitExpr, Spellable;
    FixedSpell(v);
    hide EmitBlock;
    forall k | AllSpellable(v, k)
      ensures AllSpellable(v, EmitStmt(If(condition, block, arms), k))
      ensures AllSpellable(v, EmitStmtArms(ElseIf(condition, block, arms), k))
    {
      BlockSpells(v, block, EmitStmtArms(arms, k));
      assert AllSpellable(v, Tok(Word(KwThen), EmitBlock(block, EmitStmtArms(arms, k))));
    }
  }

  lemma EndArmsSpell(v: Version, block: Block)
    requires SpellsBlock(v, block)
    ensures SpellsArmsOf(v, EndIf) && SpellsArmsOf(v, Else(block))
  {
    hide Spellable;
    FixedSpell(v);
    hide EmitBlock;
    forall k | AllSpellable(v, k)
      ensures AllSpellable(v, EmitStmtArms(EndIf, k)) && AllSpellable(v, EmitStmtArms(Else(block), k))
    {
      BlockSpells(v, block, Tok(Word(KwEnd), k));
    }
  }

  lemma StepSpells(v: Version, step: Option<Expr>, k: Tokens)
    requires SpellsStep(v, step) && k.Tok? && AllSpellable(v, k)
    ensures AllSpellable(v, EmitStep(step, k))
  {
    hide Spellable, EmitExpr;
    FixedSpell(v);
    if step.Some? {
      assert AllSpellable(v, EmitExpr(step.value, k));
    }
  }

  lemma NumericForSpells(v: Version, name: string, start: Expr, limit: Expr, step: Option<Expr>, block: Block)
    requires Spellable(v, Identifier(name)) && Spells(v, start) && Spells(v, limit) && SpellsStep(v, step)
             && SpellsBlock(v, block)
    ensures SpellsStmt(v, NumericFor(name, start, limit, step, block))
  {
    hide Spellable, EmitExpr, StartsExpr, EmitLoopBody, EmitStep, SpellsStep;
    FixedSpell(v);
    forall k | AllSpellable(v, k)
      ensures AllSpellable(v, EmitStmt(NumericFor(name, start, limit, step, block), k))
    {
      LoopBodySpells(v, block, k);
      var rest := EmitStep(step, EmitLoopBody(block, k));
      StepSpells(v, step, EmitLoopBody(block, k));
      assert AllSpellable(v, Tok(Sign(Comma), EmitExpr(limit, rest)));
      var bounds := EmitExpr(start, Tok(Sign(Comma), EmitExpr(limit, rest)));
      assert AllSpellable(v, Tok(Sign(Equal), bounds));
      assert AllSpellable(v, Tok(Identifier(name), Tok(Sign(Equal), bounds)));
    }
  }

  lemma GenericForSpells(v: Version, names: Names, exprs: Exprs, block: Block)
    requires SpellsNames(v, names) && SpellsAll(v, exprs) && SpellsBlock(v, block)
    ensures SpellsStmt(v, GenericFor(names, exprs, block))
  {
    hide Spellable;
    FixedSpell(v);
    hide EmitLoopBody;
    forall k | AllSpellable(v, k)
      ensures AllSpellable(v, EmitStmt(GenericFor(names, exprs, block), k))
    {
      LoopBodySpells(v, block, k);
      var rest := Tok(Word(KwIn), EmitExprs(exprs, EmitLoopBody(block, k)));
      assert AllSpellable(v, rest);
      assert AllSpellable(v, EmitNames(names, Comma, rest));
    }
  }

  lemma FunctionDeclSpells(v: Version, path: Names, selector: Option<string>, body: Body)
    requires SpellsNames(v, path) && SpellsSelector(v, selector) && SpellsBody(v, body)
    ensures SpellsStmt(v, FunctionDecl(path, selector, body))
  {
    hide Spellable;
    FixedSpell(v);
    hide EmitBody, EmitMethod;
    forall k | AllSpellable(v, k)
      ensures AllSpellable(v, EmitStmt(FunctionDecl(path, selector, body), k))
    {
      SelectorSpells(v, selector, EmitBody(body, k));
      assert AllSpellable(v, EmitNames(path, Dot, EmitMethod(selector, EmitBody(body, k))));
    }
  }

  lemma LocalFunctionSpells(v: Version, name: string, body: Body)
    requires Spellable(v, Identifier(name)) && SpellsBody(v, body)
    ensures SpellsStmt(v, LocalFunction(name, body))
  {
    hide Spellable;
    FixedSpell(v);
    hide EmitBody;
    forall k | AllSpellable(v, k)
      ensures AllSpellable(v, EmitStmt(LocalFunction(name, body), k))
    {
      assert AllSpellable(v, Tok(Identifier(name), EmitBody(body, k)));
      assert AllSpellable(v, Tok(Word(KwFunction), Tok(Identifier(name), EmitBody(body, k))));
    }
  }

  lemma LocalSpells(v: Version, bindings: Bindings, values: Exprs)
    requires SpellsBindings(v, bindings) && SpellsAll(v, values)
    ensures SpellsStmt(v, Local(bindings, values))
  {
    hide Spellable;
    FixedSpell(v);
    forall k | AllSpellable(v, k)
      ensures AllSpellable(v, EmitStmt(Local(bindings, values), k))
    {
      assert AllSpellable(v, Tok(Sign(Equal), EmitExprs(values, k)));
      assert AllSpellable(v, EmitBindings(bindings,
                                          if values.NoExprs? then k else Tok(Sign(Equal), EmitExprs(values, k))));
    }
  }

  lemma BindingSpells(v: Version, b: Binding, k: Tokens)
    requires Spellable(v, Identifier(b.name)) && SpellsSelector(v, b.attribute) && AllSpellable(v, k)
    ensures AllSpellable(v, EmitBinding(b, k))
  {
    hide Spellable;
    FixedSpell(v);
    if b.attribute.Some? {
      assert AllSpellable(v, Tok(Identifier(b.attribute.value), Tok(Sign(Greater), k)));
    }
  }

  lemma BindingsSpell(v: Version, head: Binding, tail: Bindings)
    requires Spellable(v, Identifier(head.name)) && SpellsSelector(v, head.attribute) && SpellsBindings(v, tail)
    ensures SpellsBindings(v, MoreBindings(head, tail))
  {
    hide Spellable;
    FixedSpell(v);
    forall k | AllSpellable(v, k)
      ensures AllSpellable(v, EmitBindings(MoreBindings(head, tail), k))
    {
      var rest := if tail.NoBindings? then k else Tok(Sign(Comma), EmitBindings(tail, k));
      BindingSpells(v, head, rest);
    }
  }

  lemma SimpleSpells(v: Version, s: Stmt)
    requires s.Empty? || s.Break? || (s.Goto? && v.HasGoto() && Spellable(v, Identifier(s.name)))
             || (s.Label? && Spellable(v, Identifier(s.name)))
    ensures SpellsStmt(v, s)
  {
    hide Spellable;
    FixedSpell(v);
    forall k | AllSpellable(v, k)
      ensures AllSpellable(v, EmitStmt(s, k))
    {
      assert AllSpellable(v, Tok(Sign(DoubleColon), k));
    }
  }

  lemma {:induction false} ParsedNamesSpell(v: Version, separator: Symbol, ts: Tokens)
    requires AllSpellable(v, ts) && ParseNames(separator, ts).Ok?
    ensures SpellsNames(v, ParseNames(separator, ts).value) && AllSpellable(v, ParseNames(separator, ts).rest)
    decreases Size(ts)
  {
    hide SpellsNames, Spellable;
    EmptySpells(v);
    if AtSign(ts.tail, separator) {
      ParsedNamesSpell(v, separator, ts.tail.tail);
      NamesSpell(v, ts.head.name, ParseNames(separator, ts.tail.tail).value);
    } else {
      NamesSpell(v, ts.head.name, NoNames);
    }
  }

  lemma {:induction false} ParsedParamsSpell(v: Version, ts: Tokens)
    requires AllSpellable(v, ts) && ParseParams(ts).Ok?
    ensures SpellsNames(v, ParseParams(ts).value.0) && AllSpellable(v, ParseParams(ts).rest)
    decreases Size(ts)
  {
    hide SpellsNames, Spellable;
    EmptySpells(v);
    if !AtSign(ts, DotDotDot) {
      if AtSign(ts.tail, RightParen) {
        NamesSpell(v, ts.head.name, NoNames);
      } else {
        ParsedParamsSpell(v, ts.tail.tail);
        NamesSpell(v, ts.head.name, ParseParams(ts.tail.tail).value.0);
      }
    }
  }

  lemma {:induction false} ParsedBodySpells(v: Version, ts: Tokens)
    requires AllSpellable(v, ts) && ParseBody(v, ts).Ok?
    ensures SpellsBody(v, ParseBody(v, ts).value) && AllSpellable(v, ParseBody(v, ts).rest)
    decreases Size(ts), 0
  {
    hide Spells, SpellsAll, SpellsBody, SpellsBlock, SpellsStmt, SpellsArmsOf, SpellsNames, SpellsBindings, Spellable,
         ParseParams, ParseBlock;
    EmptySpells(v);
    var params := if AtSign(ts.tail, RightParen) then Ok((NoNames, false), ts.tail.tail) else ParseParams(ts.tail);
    if !AtSign(ts.tail, RightParen) {
      ParsedParamsSpell(v, ts.tail);
    }
    ParsedBlockSpells(v, params.rest);
    BodySpells(v, Body(params.value.0, params.value.1, ParseBlock(v, params.rest).value));
  }

  lemma {:induction false} ParsedBlockSpells(v: Version, ts: Tokens)
    requires AllSpellable(v, ts) && ParseBlock(v, ts).Ok?
    ensures SpellsBlock(v, ParseBlock(v, ts).value) && AllSpellable(v, ParseBlock(v, ts).rest)
    decreases Size(ts), 9
  {
    hide Spells, SpellsAll, SpellsBody, SpellsBlock, SpellsStmt, SpellsArmsOf, SpellsNames, SpellsBindings, Spellable,
         ParseStmts;
    ParsedStmtsSpell(v, false, ts);
  }

  lemma {:induction false} ParsedStmtsSpell(v: Version, separable: bool, ts: Tokens)
    requires AllSpellable(v, ts) && ParseStmts(v, separable, ts).Ok?
    ensures SpellsBlock(v, ParseStmts(v, separable, ts).value) && AllSpellable(v, ParseStmts(v, separable, ts).rest)
    decreases Size(ts), 8
  {
    hide Spells, SpellsAll, SpellsBody, SpellsBlock, SpellsStmt, SpellsArmsOf, SpellsNames, SpellsBindings, Spellable,
         ParseStmt, ParseReturn, SkipSemicolon, Prepend, BlockEnd;
    if AtSign(ts, Semicolon) {
      if v.HasEmptyStatement() {
        ParsedStmtsSpell(v, separable, ts.tail);
        SimpleSpells(v, Empty);
        PrependSpells(v, Empty, ParseStmts(v, separable, ts.tail).value);
      } else {
        ParsedStmtsSpell(v, false, ts.tail);
      }
    } else if AtWord(ts, KwReturn) {
      ParsedReturnSpells(v, ts.tail);
    } else if AtWord(ts, KwBreak) && v.BreakIsLast() {
      LastSpells(v, BreakLast);
      SkippedSpells(v, ts.tail);
    } else if BlockEnd(ts) {
      LastSpells(v, NoLast);
    } else if v.Luau? && AtToken(ts, Identifier("continue")) && (BlockEnd(ts.tail) || AtSign(ts.tail, Semicolon)) {
      LastSpells(v, Continue);
      SkippedSpells(v, ts.tail);
    } else {
      var stmt := ParseStmt(v, ts);
      ParsedStmtSpells(v, ts);
      ParsedStmtsSpell(v, true, stmt.rest);
      PrependSpells(v, stmt.value, ParseStmts(v, true, stmt.rest).value);
    }
  }

  lemma SkippedSpells(v: Version, ts: Tokens)
    requires AllSpellable(v, ts)
    ensures AllSpellable(v, SkipSemicolon(ts))
  {
    hide Spellable;
  }

  lemma {:induction false} ParsedReturnSpells(v: Version, ts: Tokens)
    requires AllSpellable(v, ts) && ParseReturn(v, ts).Ok?
    ensures SpellsBlock(v, ParseReturn(v, ts).value) && AllSpellable(v, ParseReturn(v, ts).rest)
    decreases Size(ts), 7
  {
    hide Spells, SpellsAll, SpellsBody, SpellsBlock, SpellsStmt, SpellsArmsOf, SpellsNames, SpellsBindings, Spellable,
         ParseExprs, SkipSemicolon, BlockEnd;
    EmptySpells(v);
    if BlockEnd(ts) || AtSign(ts, Semicolon) {
      LastSpells(v, Return(NoExprs));
      SkippedSpells(v, ts);
    } else {
      var exprs := ParseExprs(v, ts);
      ParsedExprsSpell(v, ts);
      LastSpells(v, Return(exprs.value));
      SkippedSpells(v, exprs.rest);
    }
  }

  lemma {:induction false} ParsedStmtSpells(v: Version, ts: Tokens)
    requires AllSpellable(v, ts) && ParseStmt(v, ts).Ok?
    ensures SpellsStmt(v, ParseStmt(v, ts).value) && AllSpellable(v, ParseStmt(v, ts).rest)
    decreases Size(ts), 7
  {
    hide Spells, SpellsAll, SpellsBody, SpellsBlock, SpellsStmt, SpellsArmsOf, SpellsNames, SpellsBindings, Spellable,
         ParseWordStmt, ParseSimpleStmt, AtLuauDeclaration;
    if ts.head.Word? {
      ParsedWordStmtSpells(v, ts.head.keyword, ts);
    } else if ts.head == Sign(DoubleColon) {
      assert AllSpellable(v, ts.tail.tail) && Spellable(v, Identifier(ts.tail.head.name));
      SimpleSpells(v, Label(ts.tail.head.name));
    } else {
      ParsedSimpleSpells(v, ts);
    }
  }

  lemma {:induction false} ParsedWordStmtSpells(v: Version, w: Keyword, ts: Tokens)
    requires AllSpellable(v, ts) && ts.Tok? && ts.head == Word(w) && ParseWordStmt(v, w, ts).Ok?
    ensures SpellsStmt(v, ParseWordStmt(v, w, ts).value) && AllSpellable(v, ParseWordStmt(v, w, ts).rest)
    decreases Size(ts), 1
  {
    hide Spells, SpellsAll, SpellsBody, SpellsBlock, SpellsStmt, SpellsArmsOf, SpellsNames, SpellsBindings, Spellable,
         ParseExpr, ParseEnded, ParseLoopBody, ParseBlock, ParseStmtArms, ParseNumericFor, ParseGenericFor,
         ParseFunctionDecl, ParseLocal;
    match w
    case KwDo =>
      ParsedEndedSpells(v, ts.tail);
      DoSpells(v, ParseEnded(v, ts.tail).value);
    case KwWhile =>
      var condition := ParseExpr(v, 0, ts.tail);
      ParsedExprSpells(v, 0, ts.tail);
      ParsedLoopBodySpells(v, condition.rest);
      WhileSpells(v, condition.value, ParseLoopBody(v, condition.rest).value);
    case KwRepeat =>
      var block := ParseBlock(v, ts.tail);
      ParsedBlockSpells(v, ts.tail);
      ParsedExprSpells(v, 0, block.rest.tail);
      RepeatSpells(v, block.value, ParseExpr(v, 0, block.rest.tail).value);
    case KwIf =>
      var condition := ParseExpr(v, 0, ts.tail);
      ParsedExprSpells(v, 0, ts.tail);
      var block := ParseBlock(v, condition.rest.tail);
      ParsedBlockSpells(v, condition.rest.tail);
      ParsedStmtArmsSpell(v, block.rest);
      IfStmtSpells(v, condition.value, block.value, ParseStmtArms(v, block.rest).value);
    case KwFor =>
      if AtName(ts.tail) && NextSign(ts.tail, Equal) {
        assert AllSpellable(v, ts.tail.tail) && ts.tail.head == Identifier(ts.tail.head.name);
        ParsedNumericForSpells(v, ts.tail.head.name, ts.tail.tail.tail);
      } else {
        ParsedGenericForSpells(v, ts.tail);
      }
    case KwFunction => ParsedFunctionDeclSpells(v, ts.tail);
    case KwLocal => ParsedLocalSpells(v, ts.tail);
    case KwBreak => SimpleSpells(v, Break);
    case KwGoto => SimpleSpells(v, Goto(ts.tail.head.name));
    case _ =>
  }

  lemma {:induction false} ParsedEndedSpells(v: Version, ts: Tokens)
    requires AllSpellable(v, ts) && ParseEnded(v, ts).Ok?
    ensures SpellsBlock(v, ParseEnded(v, ts).value) && AllSpellable(v, ParseEnded(v, ts).rest)
    decreases Size(ts), 10
  {
    hide Spells, SpellsAll, SpellsBody, SpellsBlock, SpellsStmt, SpellsArmsOf, SpellsNames, SpellsBindings, Spellable,
         ParseBlock;
    ParsedBlockSpells(v, ts);
  }

  lemma {:induction false} ParsedLoopBodySpells(v: Version, ts: Tokens)
    requires AllSpellable(v, ts) && ParseLoopBody(v, ts).Ok?
    ensures SpellsBlock(v, ParseLoopBody(v, ts).value) && AllSpellable(v, ParseLoopBody(v, ts).rest)
    decreases Size(ts), 0
  {
    hide Spells, SpellsAll, SpellsBody, SpellsBlock, SpellsStmt, SpellsArmsOf, SpellsNames, SpellsBindings, Spellable,
         ParseEnded;
    ParsedEndedSpells(v, ts.tail);
  }

  lemma {:induction false} ParsedStmtArmsSpell(v: Version, ts: Tokens)
    requires AllSpellable(v, ts) && ParseStmtArms(v, ts).Ok?
    ensures SpellsArmsOf(v, ParseStmtArms(v, ts).value) && AllSpellable(v, ParseStmtArms(v, ts).rest)
    decreases Size(ts), 0
  {
    hide Spells, SpellsAll, SpellsBody, SpellsBlock, SpellsStmt, SpellsArmsOf, SpellsNames, SpellsBindings, Spellable,
         ParseExpr, ParseBlock, ParseEnded;
    LastSpells(v, NoLast);
    EndArmsSpell(v, Block(NoStmts, NoLast));
    if AtWord(ts, KwElseIf) {
      var condition := ParseExpr(v, 0, ts.tail);
      ParsedExprSpells(v, 0, ts.tail);
      var block := ParseBlock(v, condition.rest.tail);
      ParsedBlockSpells(v, condition.rest.tail);
      ParsedStmtArmsSpell(v, block.rest);
      IfStmtSpells(v, condition.value, block.value, ParseStmtArms(v, block.rest).value);
    } else if AtWord(ts, KwElse) {
      ParsedEndedSpells(v, ts.tail);
      EndArmsSpell(v, ParseEnded(v, ts.tail).value);
    }
  }

  lemma {:induction false} ParsedNumericForSpells(v: Version, name: string, ts: Tokens)
    requires AllSpellable(v, ts) && Spellable(v, Identifier(name)) && ParseNumericFor(v, name, ts).Ok?
    ensures SpellsStmt(v, ParseNumericFor(v, name, ts).value) && AllSpellable(v, ParseNumericFor(v, name, ts).rest)
    decreases Size(ts), 6
  {
    hide Spells, SpellsAll, SpellsBody, SpellsBlock, SpellsStmt, SpellsArmsOf, SpellsNames, SpellsBindings, Spellable,
         ParseExpr, ParseStep, ParseLoopBody, SpellsStep;
    var start := ParseExpr(v, 0, ts);
    ParsedExprSpells(v, 0, ts);
    var limit := ParseExpr(v, 0, start.rest.tail);
    ParsedExprSpells(v, 0, start.rest.tail);
    var step := ParseStep(v, limit.rest);
    ParsedStepSpells(v, limit.rest);
    ParsedLoopBodySpells(v, step.rest);
    NumericForSpells(v, name, start.value, limit.value, step.value, ParseLoopBody(v, step.rest).value);
  }

  lemma {:induction false} ParsedStepSpells(v: Version, ts: Tokens)
    requires AllSpellable(v, ts) && ParseStep(v, ts).Ok?
    ensures SpellsStep(v, ParseStep(v, ts).value) && AllSpellable(v, ParseStep(v, ts).rest)
    decreases Size(ts), 0
  {
    hide Spells, SpellsAll, SpellsBody, SpellsBlock, SpellsStmt, SpellsArmsOf, SpellsNames, SpellsBindings, Spellable,
         ParseExpr;
    if AtSign(ts, Comma) {
      ParsedExprSpells(v, 0, ts.tail);
    }
  }

  lemma {:induction false} ParsedGenericForSpells(v: Version, ts: Tokens)
    requires AllSpellable(v, ts) && ParseGenericFor(v, ts).Ok?
    ensures SpellsStmt(v, ParseGenericFor(v, ts).value) && AllSpellable(v, ParseGenericFor(v, ts).rest)
    decreases Size(ts), 0
  {
    hide Spells, SpellsAll, SpellsBody, SpellsBlock, SpellsStmt, SpellsArmsOf, SpellsNames, SpellsBindings, Spellable,
         ParseNames, ParseExprs, ParseLoopBody;
    var names := ParseNames(Comma, ts);
    ParsedNamesSpell(v, Comma, ts);
    var exprs := ParseExprs(v, names.rest.tail);
    ParsedExprsSpell(v, names.rest.tail);
    ParsedLoopBodySpells(v, exprs.rest);
    GenericForSpells(v, names.value, exprs.value, ParseLoopBody(v, exprs.rest).value);
  }

  lemma {:induction false} ParsedFunctionDeclSpells(v: Version, ts: Tokens)
    requires AllSpellable(v, ts) && ParseFunctionDecl(v, ts).Ok?
    ensures SpellsStmt(v, ParseFunctionDecl(v, ts).value) && AllSpellable(v, ParseFunctionDecl(v, ts).rest)
    decreases Size(ts), 1
  {
    hide Spells, SpellsAll, SpellsBody, SpellsBlock, SpellsStmt, SpellsArmsOf, SpellsNames, SpellsBindings, Spellable,
         ParseNames, ParseBody;
    var path := ParseNames(Dot, ts);
    ParsedNamesSpell(v, Dot, ts);
    var selector := ParseSelector(path.rest);
    ParsedBodySpells(v, selector.rest);
    FunctionDeclSpells(v, path.value, selector.value, ParseBody(v, selector.rest).value);
  }

  lemma {:induction false} ParsedLocalSpells(v: Version, ts: Tokens)
    requires AllSpellable(v, ts) && ParseLocal(v, ts).Ok?
    ensures SpellsStmt(v, ParseLocal(v, ts).value) && AllSpellable(v, ParseLocal(v, ts).rest)
    decreases Size(ts), 1
  {
    hide Spells, SpellsAll, SpellsBody, SpellsBlock, SpellsStmt, SpellsArmsOf, SpellsNames, SpellsBindings, Spellable,
         ParseBody, ParseBindings, ParseExprs, Closers;
    EmptySpells(v);
    if AtWord(ts, KwFunction) {
      ParsedBodySpells(v, ts.tail.tail);
      LocalFunctionSpells(v, ts.tail.head.name, ParseBody(v, ts.tail.tail).value);
    } else {
      var bindings := ParseBindings(v, ts);
      ParsedBindingsSpell(v, ts);
      if AtSign(bindings.rest, Equal) {
        ParsedExprsSpell(v, bindings.rest.tail);
        LocalSpells(v, bindings.value, ParseExprs(v, bindings.rest.tail).value);
      } else {
        LocalSpells(v, bindings.value, NoExprs);
      }
    }
  }

  lemma {:induction false} ParsedBindingsSpell(v: Version, ts: Tokens)
    requires AllSpellable(v, ts) && ParseBindings(v, ts).Ok?
    ensures SpellsBindings(v, ParseBindings(v, ts).value) && AllSpellable(v, ParseBindings(v, ts).rest)
    decreases Size(ts)
  {
    hide Spells, SpellsAll, SpellsBody, SpellsBlock, SpellsStmt, SpellsArmsOf, SpellsNames, SpellsBindings, Spellable,
         ParseBinding, SpellsSelector;
    NoBindingsSpell(v);
    var first := ParseBinding(v, ts);
    ParsedBindingSpells(v, ts);
    if AtSign(first.rest, Comma) {
      ParsedBindingsSpell(v, first.rest.tail);
      BindingsSpell(v, first.value, ParseBindings(v, first.rest.tail).value);
    } else {
      BindingsSpell(v, first.value, NoBindings);
    }
  }

  lemma NoBindingsSpell(v: Version)
    ensures SpellsBindings(v, NoBindings)
  {
  }

  lemma ParsedBindingSpells(v: Version, ts: Tokens)
    requires AllSpellable(v, ts) && ParseBinding(v, ts).Ok?
    ensures var b := ParseBinding(v, ts).value; Spellable(v, Identifier(b.name)) && SpellsSelector(v, b.attribute)
    ensures AllSpellable(v, ParseBinding(v, ts).rest)
  {
    hide Spellable;
    assert AtName(ts) && Spellable(v, ts.head) && AllSpellable(v, ts.tail);
    if v.HasAttributes() && AtSign(ts.tail, Less) {
      var attribute := ts.tail.tail;
      assert AllSpellable(v, attribute) && AtName(attribute);
      assert Spellable(v, attribute.head) && AllSpellable(v, attribute.tail);
      assert AllSpellable(v, attribute.tail.tail);
    }
  }

  lemma {:induction false} ParsedSimpleSpells(v: Version, ts: Tokens)
    requires AllSpellable(v, ts) && ParseSimpleStmt(v, ts).Ok?
    ensures SpellsStmt(v, ParseSimpleStmt(v, ts).value) && AllSpellable(v, ParseSimpleStmt(v, ts).rest)
    decreases Size(ts), 6
  {
    hide Spells, SpellsAll, SpellsBody, SpellsBlock, SpellsStmt, SpellsArmsOf, SpellsNames, SpellsBindings, Spellable,
         ParseExpr, ParseTargets, ParseExprs, CompoundOpOf, CompoundToken, AllVars, IsVar;
    var first := ParseExpr(v, 0, ts);
    ParsedExprSpells(v, 0, ts);
    if v.Luau? && first.rest.Tok? && CompoundOpOf(first.rest.head).Some? {
      ParsedExprSpells(v, 0, first.rest.tail);
      CompoundSpells(v, first.value, CompoundOpOf(first.rest.head).value, ParseExpr(v, 0, first.rest.tail).value);
    } else if AtSign(first.rest, Comma) || AtSign(first.rest, Equal) {
      var more := ParseTargets(v, first.rest);
      ParsedTargetsSpell(v, first.rest);
      ExprsSpell(v, first.value, more.value);
      ParsedExprsSpell(v, more.rest.tail);
      AssignSpells(v, MoreExprs(first.value, more.value), ParseExprs(v, more.rest.tail).value);
    } else {
      CallStmtSpells(v, first.value);
    }
  }

  lemma {:induction false} ParsedTargetsSpell(v: Version, ts: Tokens)
    requires AllSpellable(v, ts) && ParseTargets(v, ts).Ok?
    ensures SpellsAll(v, ParseTargets(v, ts).value) && AllSpellable(v, ParseTargets(v, ts).rest)
    decreases Size(ts), 0
  {
    hide Spells, SpellsAll, SpellsBody, SpellsBlock, SpellsStmt, SpellsArmsOf, SpellsNames, SpellsBindings, Spellable,
         ParseExpr;
    EmptySpells(v);
    if AtSign(ts, Comma) {
      var next := ParseExpr(v, 0, ts.tail);
      ParsedExprSpells(v, 0, ts.tail);
      ParsedTargetsSpell(v, next.rest);
      ExprsSpell(v, next.value, ParseTargets(v, next.rest).value);
    }
  }

  /** A program parsed from spellable tokens is printed with spellable tokens. */
  lemma ParsedSpells(v: Version, ts: Tokens)
    requires AllSpellable(v, ts) && Parse(v, ts).Some?
    ensures AllSpellable(v, EmitBlock(Parse(v, ts).value, Eof))
  {
    hide Spellable, SpellsBlock, ParseBlock, EmitBlock;
    ParsedBlockSpells(v, ts);
    BlockSpells(v, ParseBlock(v, ts).value, Eof);
  }
}
