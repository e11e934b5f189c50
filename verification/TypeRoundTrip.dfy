/** Printed types read back as themselves. */
module TypeRoundTrip {
  import opened LuaSyntax
  import opened Emission
  import opened Grammar
  import opened CanonicalForm

  predicate TypeFollows(t: Type, k: Tokens) { k.Tok? ==> TypeSealed(t, k.head) }

  lemma {:induction false} PrimaryTypeReads(t: Type, k: Tokens)
    requires PrimaryType(t) && CanonicalType(t) && (k.Tok? ==> PrimaryTypeSealed(t, k.head))
    ensures ParsePrimaryType(EmitType(t, k)) == Ok(t, k)
    decreases t, 0
  {
    match t
    case TypeName(name) =>
    case Generic(name, args) => TypeArgsRead(args, k);
    case ParenType(inner) =>
      var close := Tok(Sign(RightParen), k);
      CloserSealsType(inner, Sign(RightParen));
      TypeReads(inner, close);
      TypeStart(inner, close);
  }

  /** A type starts with a name or `(`, and no `:` comes second. */
  lemma {:induction false} TypeStart(t: Type, k: Tokens)
    requires CanonicalType(t) && !AtSign(k, Colon)
    ensures EmitType(t, k).Tok?
    ensures EmitType(t, k).head.Identifier? || EmitType(t, k).head == Sign(LeftParen)
    ensures AtName(EmitType(t, k)) ==> !NextSign(EmitType(t, k), Colon)
    decreases t
  {
    match t
    case Optional(inner) => TypeStart(inner, Tok(Sign(Question), k));
    case Union(types) => TypeStart(types.head, Tok(Sign(Pipe), EmitTypes(types.tail, Sign(Pipe), k)));
    case Intersection(types) => TypeStart(types.head, Tok(Sign(Ampersand), EmitTypes(types.tail, Sign(Ampersand), k)));
    case _ =>
  }

  lemma {:induction false} TypeArgsRead(args: Types, k: Tokens)
    requires CanonicalTypes(args)
    ensures ParseTypeArgs(EmitTypes(args, Sign(Comma), Tok(Sign(Greater), k))) == Ok(args, k)
    decreases args
  {
    match args
    case NoTypes =>
    case MoreTypes(head, tail) =>
      var close := Tok(Sign(Greater), k);
      if tail.NoTypes? {
        CloserSealsType(head, Sign(Greater));
        TypeReads(head, close);
        TypeStart(head, close);
      } else {
        var rest := Tok(Sign(Comma), EmitTypes(tail, Sign(Comma), close));
        CloserSealsType(head, Sign(Comma));
        TypeReads(head, rest);
        TypeStart(head, rest);
        TypeArgsRead(tail, k);
      }
  }

  lemma {:induction false} PostfixTypeReads(t: Type, k: Tokens)
    requires PostfixType(t) && CanonicalType(t) && (k.Tok? ==> TypeEdgeSealed(t, k.head))
    ensures ParsePostfixType(EmitType(t, k)) == ParseQuestions(t, k)
    decreases t, 1
  {
    match t
    case Optional(inner) => PostfixTypeReads(inner, Tok(Sign(Question), k));
    case _ => PrimaryTypeReads(t, k);
  }

  lemma {:induction false} TypeReads(t: Type, k: Tokens)
    requires CanonicalType(t) && TypeFollows(t, k)
    ensures ParseType(EmitType(t, k)) == Ok(t, k)
    decreases t, 2
  {
    match t
    case Union(types) =>
      assert k.Tok? ==> TypesEdgeSealed(types, k.head);
      var rest := Tok(Sign(Pipe), EmitTypes(types.tail, Sign(Pipe), k));
      CloserSealsType(types.head, Sign(Pipe));
      PostfixTypeReads(types.head, rest);
      UnionTailReads(types.tail, k);
    case Intersection(types) =>
      assert k.Tok? ==> TypesEdgeSealed(types, k.head);
      var rest := Tok(Sign(Ampersand), EmitTypes(types.tail, Sign(Ampersand), k));
      CloserSealsType(types.head, Sign(Ampersand));
      PostfixTypeReads(types.head, rest);
      IntersectionTailReads(types.tail, k);
    case _ => PostfixTypeReads(t, k);
  }

  lemma {:induction false} UnionTailReads(types: Types, k: Tokens)
    requires types.MoreTypes? && CanonicalTypes(types) && UnionMembers(types)
    requires k.Tok? ==> TypesEdgeSealed(types, k.head) && k.head !in [Sign(Question), Sign(Ampersand), Sign(Pipe)]
    ensures ParseUnionTail(Tok(Sign(Pipe), EmitTypes(types, Sign(Pipe), k))) == Ok(types, k)
    decreases types
  {
    if types.tail.NoTypes? {
      PostfixTypeReads(types.head, k);
    } else {
      CloserSealsType(types.head, Sign(Pipe));
      PostfixTypeReads(types.head, Tok(Sign(Pipe), EmitTypes(types.tail, Sign(Pipe), k)));
      UnionTailReads(types.tail, k);
    }
  }

  lemma {:induction false} IntersectionTailReads(types: Types, k: Tokens)
    requires types.MoreTypes? && CanonicalTypes(types) && IntersectionMembers(types)
    requires k.Tok? ==> TypesEdgeSealed(types, k.head) && k.head !in [Sign(Question), Sign(Ampersand), Sign(Pipe)]
    ensures ParseIntersectionTail(Tok(Sign(Ampersand), EmitTypes(types, Sign(Ampersand), k))) == Ok(types, k)
    decreases types
  {
    if types.tail.NoTypes? {
      PostfixTypeReads(types.head, k);
    } else {
      CloserSealsType(types.head, Sign(Ampersand));
      PostfixTypeReads(types.head, Tok(Sign(Ampersand), EmitTypes(types.tail, Sign(Ampersand), k)));
      IntersectionTailReads(types.tail, k);
    }
  }
}
