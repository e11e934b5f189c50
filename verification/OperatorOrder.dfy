/** The operators as the Lua reference manual lists them (section 3.4.8 of the 5.4 manual), and that
    reading, printing and building group by that list. */
module OperatorOrder {
  import opened LuaSyntax
  import opened Emission
  import opened Grammar
  import opened CanonicalForm
  import opened Synth
  import Programs
  import Spacing

  datatype Row = Operators(ops: set<BinOp>, rightward: bool) | UnaryOperators

  /** From the loosest to the tightest; `rightward` rows group from the right. */
  const ORDER: seq<Row> := [
    Operators({Or}, false),
    Operators({And}, false),
    Operators({Lt, Gt, Le, Ge, Ne, Eq}, false),
    Operators({BitOr}, false),
    Operators({BitXor}, false),
    Operators({BitAnd}, false),
    Operators({Shl, Shr}, false),
    Operators({Concat}, true),
    Operators({Add, Sub}, false),
    Operators({Mul, Div, FloorDiv, Mod}, false),
    UnaryOperators,
    Operators({Pow}, true)
  ]

  predicate InRow(op: BinOp, i: int) { 0 <= i < |ORDER| && ORDER[i].Operators? && op in ORDER[i].ops }

  ghost predicate Looser(a: BinOp, b: BinOp) { exists i, j :: InRow(a, i) && InRow(b, j) && i < j }

  ghost predicate SameRow(a: BinOp, b: BinOp) { exists i :: InRow(a, i) && InRow(b, i) }

  ghost predicate Rightward(op: BinOp) { exists i :: InRow(op, i) && ORDER[i].rightward }

  /** Listed behind the unary operators. */
  ghost predicate AboveUnary(op: BinOp) {
    exists i, j :: 0 <= i < |ORDER| && ORDER[i].UnaryOperators? && InRow(op, j) && i < j
  }

  /** `x a y b z` is `(x a y) b z`. */
  ghost predicate GroupsLeft(a: BinOp, b: BinOp) { Looser(b, a) || (SameRow(a, b) && !Rightward(a)) }

  // ----- the list and the numbers -----

  function RowOf(op: BinOp): nat {
    match op
    case Or => 0
    case And => 1
    case Lt | Gt | Le | Ge | Ne | Eq => 2
    case BitOr => 3
    case BitXor => 4
    case BitAnd => 5
    case Shl | Shr => 6
    case Concat => 7
    case Add | Sub => 8
    case Mul | Div | Mod | FloorDiv => 9
    case Pow => 11
  }

  lemma OneRow(op: BinOp)
    ensures forall i :: InRow(op, i) <==> i == RowOf(op)
  {
    forall i: int
      ensures InRow(op, i) <==> i == RowOf(op)
    {
      if 0 <= i < |ORDER| {
        RowHolds(op, i);
      }
    }
  }

  lemma RowHolds(op: BinOp, i: nat)
    requires i < |ORDER|
    ensures InRow(op, i) <==> i == RowOf(op)
  {
    if i == 0 { assert ORDER[0].ops == {Or}; }
    else if i == 1 { assert ORDER[1].ops == {And}; }
    else if i == 2 { assert ORDER[2].ops == {Lt, Gt, Le, Ge, Ne, Eq}; }
    else if i == 3 { assert ORDER[3].ops == {BitOr}; }
    else if i == 4 { assert ORDER[4].ops == {BitXor}; }
    else if i == 5 { assert ORDER[5].ops == {BitAnd}; }
    else if i == 6 { assert ORDER[6].ops == {Shl, Shr}; }
    else if i == 7 { assert ORDER[7].ops == {Concat}; }
    else if i == 8 { assert ORDER[8].ops == {Add, Sub}; }
    else if i == 9 { assert ORDER[9].ops == {Mul, Div, FloorDiv, Mod}; }
    else if i == 10 { assert ORDER[10].UnaryOperators?; }
    else { assert ORDER[11].ops == {Pow}; }
  }

  lemma RightwardRows(i: nat)
    requires i < |ORDER|
    ensures ORDER[i].UnaryOperators? <==> i == 10
    ensures i != 10 ==> (ORDER[i].rightward <==> i == 7 || i == 11)
  {
    if i == 0 { assert !ORDER[0].rightward; }
    else if i == 1 { assert !ORDER[1].rightward; }
    else if i == 2 { assert !ORDER[2].rightward; }
    else if i == 3 { assert !ORDER[3].rightward; }
    else if i == 4 { assert !ORDER[4].rightward; }
    else if i == 5 { assert !ORDER[5].rightward; }
    else if i == 6 { assert !ORDER[6].rightward; }
    else if i == 7 { assert ORDER[7].rightward; }
    else if i == 8 { assert !ORDER[8].rightward; }
    else if i == 9 { assert !ORDER[9].rightward; }
    else if i == 10 { assert ORDER[10].UnaryOperators?; }
    else { assert ORDER[11].rightward; }
  }

  lemma InRange(op: BinOp)
    ensures RowOf(op) < |ORDER| == 12
  {
  }

  lemma RowsDecide(a: BinOp, b: BinOp, rowOfA: nat, rowOfB: nat)
    requires InRow(a, rowOfA) && forall i :: InRow(a, i) ==> i == rowOfA
    requires InRow(b, rowOfB) && forall i :: InRow(b, i) ==> i == rowOfB
    ensures Looser(a, b) <==> rowOfA < rowOfB
    ensures SameRow(a, b) <==> rowOfA == rowOfB
  {
    hide InRow, ORDER;
    if Looser(a, b) {
      var i, j :| InRow(a, i) && InRow(b, j) && i < j;
    }
  }

  lemma LooserIsLower(a: BinOp, b: BinOp)
    ensures Looser(a, b) <==> RowOf(a) < RowOf(b)
    ensures SameRow(a, b) <==> RowOf(a) == RowOf(b)
  {
    hide InRow, RowOf, ORDER, Looser, SameRow;
    OneRow(a);
    OneRow(b);
    RowsDecide(a, b, RowOf(a), RowOf(b));
  }

  lemma RightwardIsRow(op: BinOp)
    ensures RowOf(op) < |ORDER| && RowOf(op) != 10
    ensures Rightward(op) <==> RowOf(op) == 7 || RowOf(op) == 11
  {
    hide InRow, ORDER;
    OneRow(op);
    assert RowOf(op) < |ORDER| by { InRange(op); }
    RightwardRows(RowOf(op));
    assert InRow(op, RowOf(op));
  }

  lemma AboveUnaryIsRow(op: BinOp)
    ensures AboveUnary(op) <==> 10 < RowOf(op)
  {
    hide InRow, RowOf;
    OneRow(op);
    forall i | 0 <= i < |ORDER|
      ensures ORDER[i].UnaryOperators? <==> i == 10
    {
      RightwardRows(i);
    }
    assert InRow(op, RowOf(op)) && ORDER[10].UnaryOperators?;
  }

  /** The list and the precedence numbers say the same. */
  lemma OrderIsPrecedence(a: BinOp, b: BinOp)
    ensures Looser(a, b) <==> Precedence(a) < Precedence(b)
    ensures SameRow(a, b) <==> Precedence(a) == Precedence(b)
    ensures Rightward(a) <==> RightAssociative(a)
    ensures AboveUnary(a) <==> UNARY_PRECEDENCE <= Precedence(a)
    ensures GroupsLeft(a, b) <==> Precedence(b) < RightMinimum(a)
  {
    hide Looser, SameRow, Rightward, AboveUnary, RowOf, Precedence, RightAssociative;
    LooserIsLower(a, b);
    LooserIsLower(b, a);
    RightwardIsRow(a);
    AboveUnaryIsRow(a);
    RowsRise(a, b);
    RowsRise(b, a);
  }

  lemma RowsRise(a: BinOp, b: BinOp)
    ensures RowOf(a) < RowOf(b) <==> Precedence(a) < Precedence(b)
    ensures RowOf(a) > 10 <==> UNARY_PRECEDENCE <= Precedence(a)
    ensures RowOf(a) == 7 || RowOf(a) == 11 <==> RightAssociative(a)
    ensures RightAssociative(a) && RowOf(a) == RowOf(b) ==> RightAssociative(b)
  {
  }

  // ----- how operators are written -----

  /** The texts of the manual. */
  function Written(op: BinOp): string {
    match op
    case Or => "or"
    case And => "and"
    case Lt => "<"
    case Gt => ">"
    case Le => "<="
    case Ge => ">="
    case Ne => "~="
    case Eq => "=="
    case BitOr => "|"
    case BitXor => "~"
    case BitAnd => "&"
    case Shl => "<<"
    case Shr => ">>"
    case Concat => ".."
    case Add => "+"
    case Sub => "-"
    case Mul => "*"
    case Div => "/"
    case FloorDiv => "//"
    case Mod => "%"
    case Pow => "^"
  }

  function WrittenUnary(op: UnOp): string {
    match op
    case Not => "not"
    case Neg => "-"
    case Len => "#"
    case BitNot => "~"
  }

  lemma OperatorsAreWritten(op: BinOp)
    ensures Spacing.Spell(BinToken(op)) == Written(op)
  {
  }

  lemma UnaryIsWritten(op: UnOp)
    ensures Spacing.Spell(UnToken(op)) == WrittenUnary(op)
  {
  }

  // ----- trees of operators -----

  /** Operators of the dialect over operands that hold together by themselves. */
  predicate OperatorTree(v: Version, e: Expr)
    decreases e
  {
    match e
    case Binary(left, op, right) => (Bitwise(op) ==> v.HasBitwise()) && OperatorTree(v, left) && OperatorTree(v, right)
    case Unary(_, operand) => OperatorTree(v, operand)
    case IfExpr(_, _, _) => false
    case Cast(_, _) => false
    case _ => Canonical(v, v.HasEmptyStatement(), e)
  }

  /** Every operator of the tree stands above those that the list ties looser. */
  ghost predicate Grouped(e: Expr)
    decreases e
  {
    match e
    case Binary(left, op, right) =>
      && Grouped(left) && Grouped(right)
      && (left.Binary? ==> GroupsLeft(left.op, op))
      && (left.Unary? ==> !AboveUnary(op))
      && (right.Binary? ==> !GroupsLeft(op, right.op))
    case Unary(_, operand) => Grouped(operand) && (operand.Binary? ==> AboveUnary(operand.op))
    case _ => true
  }

  lemma {:induction false} GroupedSpine(e: Expr, min: nat)
    requires Grouped(e) && (e.Binary? ==> min <= Precedence(e.op))
    ensures Spine(e, min)
    decreases e
  {
    hide GroupsLeft, AboveUnary;
    if e.Binary? {
      if e.left.Binary? {
        OrderIsPrecedence(e.left.op, e.op);
      }
      GroupedSpine(e.left, min);
    }
  }

  /** A grouped operand on the left of `op` ends where `op` comes. */
  lemma {:induction false} GroupedSeals(v: Version, e: Expr, op: BinOp)
    requires OperatorTree(v, e) && Grouped(e)
    requires (e.Binary? ==> GroupsLeft(e.op, op)) && (e.Unary? ==> !AboveUnary(op))
    ensures Sealed(v, e, BinToken(op))
    decreases e
  {
    hide GroupsLeft, AboveUnary, Canonical, SimpleSealed, Precedence, TokenBinds, BinToken, RightAssociative;
    OrderIsPrecedence(op, op);
    match e
    case Binary(left, inner, right) =>
      OrderIsPrecedence(inner, op);
      OperatorBinds(v, RightMinimum(inner), op);
      if right.Binary? {
        OrderIsPrecedence(inner, right.op);
        OrderIsPrecedence(right.op, op);
      }
      TightestIsPow(inner, op);
      GroupedSeals(v, right, op);
    case Unary(_, operand) =>
      OperatorBinds(v, UNARY_PRECEDENCE, op);
      if operand.Binary? {
        OrderIsPrecedence(operand.op, op);
      }
      GroupedSeals(v, operand, op);
    case _ => AtomSeals(v, e, op);
  }

  lemma TightestIsPow(inner: BinOp, op: BinOp)
    ensures UNARY_PRECEDENCE <= Precedence(op) ==> RightMinimum(inner) <= Precedence(op)
  {
  }

  lemma OperatorBinds(v: Version, min: nat, op: BinOp)
    ensures TokenBinds(v, min, BinToken(op)) <==> (Bitwise(op) ==> v.HasBitwise()) && min <= Precedence(op)
  {
  }

  lemma AtomSeals(v: Version, e: Expr, op: BinOp)
    requires !e.Binary? && !e.Unary? && !e.IfExpr? && !e.Cast?
    ensures Sealed(v, e, BinToken(op))
  {
    OperatorIsNoSuffix(op);
  }

  /** A tree of operators reads back from its tokens as itself if and only if it is grouped as the manual
      lists the operators. */
  lemma {:induction false} ReadsIffGrouped(v: Version, e: Expr)
    requires OperatorTree(v, e)
    ensures Canonical(v, v.HasEmptyStatement(), e) <==> Grouped(e)
    ensures ParseExpr(v, 0, EmitExpr(e, Eof)) == Ok(e, Eof) <==> Grouped(e)
  {
    hide OperatorTree, Grouped, Canonical, ParseExpr, EmitExpr;
    CanonicalIffGrouped(v, e);
    Programs.ExprReadsIffCanonical(v, e);
  }

  lemma {:induction false} CanonicalIffGrouped(v: Version, e: Expr)
    requires OperatorTree(v, e)
    ensures Canonical(v, v.HasEmptyStatement(), e) <==> Grouped(e)
    decreases e
  {
    hide GroupsLeft, AboveUnary, SimpleSealed, Sealed, Spine, Bitwise, BinToken, RightMinimum;
    match e
    case Binary(left, op, right) =>
      CanonicalIffGrouped(v, left);
      CanonicalIffGrouped(v, right);
      if Grouped(left) && Grouped(right) {
        JoinIffGrouped(v, left, op, right);
      }
    case Unary(_, operand) =>
      CanonicalIffGrouped(v, operand);
      UnaryIffGrouped(operand);
    case _ =>
  }

  lemma UnaryIffGrouped(operand: Expr)
    ensures Grouped(operand) ==> (Spine(operand, UNARY_PRECEDENCE) <==> (operand.Binary? ==> AboveUnary(operand.op)))
  {
    hide GroupsLeft, AboveUnary;
    if operand.Binary? {
      OrderIsPrecedence(operand.op, operand.op);
    }
    if Grouped(operand) && (operand.Binary? ==> AboveUnary(operand.op)) {
      GroupedSpine(operand, UNARY_PRECEDENCE);
    }
  }

  lemma JoinIffGrouped(v: Version, left: Expr, op: BinOp, right: Expr)
    requires OperatorTree(v, left) && OperatorTree(v, right) && Grouped(left) && Grouped(right)
    requires Bitwise(op) ==> v.HasBitwise()
    ensures Sealed(v, left, BinToken(op)) && Spine(right, RightMinimum(op))
            <==> Grouped(Binary(left, op, right))
  {
    hide GroupsLeft, AboveUnary, Canonical, OperatorTree;
    OrderIsPrecedence(op, op);
    OperatorBinds(v, 0, op);
    if Grouped(Binary(left, op, right)) {
      GroupedSeals(v, left, op);
      if right.Binary? {
        OrderIsPrecedence(op, right.op);
      }
      GroupedSpine(right, RightMinimum(op));
    }
    if Sealed(v, left, BinToken(op)) && Spine(right, RightMinimum(op)) {
      SealedGroups(v, left, op);
      if right.Binary? {
        OrderIsPrecedence(op, right.op);
      }
    }
  }

  lemma SealedGroups(v: Version, left: Expr, op: BinOp)
    requires Sealed(v, left, BinToken(op)) && (Bitwise(op) ==> v.HasBitwise())
    ensures left.Binary? ==> GroupsLeft(left.op, op)
    ensures left.Unary? ==> !AboveUnary(op)
  {
    hide GroupsLeft, AboveUnary;
    OrderIsPrecedence(op, op);
    if left.Binary? {
      OrderIsPrecedence(left.op, op);
      OperatorBinds(v, RightMinimum(left.op), op);
    }
    if left.Unary? {
      OperatorBinds(v, UNARY_PRECEDENCE, op);
    }
  }

  // ----- one level at a time -----

  lemma AtomStep(v: Version, e: Expr)
    requires Atom(v, e)
    ensures OperatorTree(v, e) && Grouped(e)
  {
    hide Canonical;
  }

  lemma BinaryStep(v: Version, left: Expr, op: BinOp, right: Expr, k: Tokens)
    ensures OperatorTree(v, Binary(left, op, right))
            <==> Available(v, op) && OperatorTree(v, left) && OperatorTree(v, right)
    ensures Grouped(Binary(left, op, right))
            <==> && Grouped(left) && Grouped(right)
                 && (left.Binary? ==> GroupsLeft(left.op, op))
                 && (left.Unary? ==> !AboveUnary(op))
                 && (right.Binary? ==> !GroupsLeft(op, right.op))
    ensures EmitExpr(Binary(left, op, right), k) == EmitExpr(left, Tok(BinToken(op), EmitExpr(right, k)))
  {
    hide GroupsLeft, AboveUnary, Canonical, BinToken;
  }

  lemma UnaryStep(v: Version, op: UnOp, operand: Expr, k: Tokens)
    ensures OperatorTree(v, Unary(op, operand)) <==> OperatorTree(v, operand)
    ensures Grouped(Unary(op, operand)) <==> Grouped(operand) && (operand.Binary? ==> AboveUnary(operand.op))
    ensures EmitExpr(Unary(op, operand), k) == Tok(UnToken(op), EmitExpr(operand, k))
  {
    hide AboveUnary, Canonical, UnToken;
  }

  // ----- how a run of operators is read -----

  predicate Available(v: Version, op: BinOp) { Bitwise(op) ==> v.HasBitwise() }

  /** `x a y b z`. */
  function TwoOperators(x: Expr, a: BinOp, y: Expr, b: BinOp, z: Expr, k: Tokens): Tokens {
    EmitExpr(x, Tok(BinToken(a), EmitExpr(y, Tok(BinToken(b), EmitExpr(z, k)))))
  }

  /** An operand that is no operator expression itself. */
  predicate Atom(v: Version, e: Expr) { OperatorTree(v, e) && !e.Binary? && !e.Unary? }

  /** Two operators in a row group from the left or from the right as the manual lists them. */
  lemma TwoOperatorsRead(v: Version, x: Expr, a: BinOp, y: Expr, b: BinOp, z: Expr)
    requires Atom(v, x) && Atom(v, y) && Atom(v, z) && Available(v, a) && Available(v, b)
    ensures ParseExpr(v, 0, TwoOperators(x, a, y, b, z, Eof))
            == Ok(if GroupsLeft(a, b) then Binary(Binary(x, a, y), b, z) else Binary(x, a, Binary(y, b, z)), Eof)
  {
    hide GroupsLeft, AboveUnary, ParseExpr, Canonical, EmitExpr, TwoOperators, OperatorTree, Grouped;
    var left, right := Binary(Binary(x, a, y), b, z), Binary(x, a, Binary(y, b, z));
    BothEmit(x, a, y, b, z, Eof);
    GroupingOfThree(v, x, a, y, b, z);
    ReadsIffGrouped(v, if GroupsLeft(a, b) then left else right);
  }

  lemma GroupingOfThree(v: Version, x: Expr, a: BinOp, y: Expr, b: BinOp, z: Expr)
    requires Atom(v, x) && Atom(v, y) && Atom(v, z) && Available(v, a) && Available(v, b)
    ensures var left := Binary(Binary(x, a, y), b, z);
            OperatorTree(v, left) && (Grouped(left) <==> GroupsLeft(a, b))
    ensures var right := Binary(x, a, Binary(y, b, z));
            OperatorTree(v, right) && (Grouped(right) <==> !GroupsLeft(a, b))
  {
    hide GroupsLeft, AboveUnary, ParseExpr, Canonical, EmitExpr, OperatorTree, Grouped, BinToken, UnToken;
    AtomStep(v, x);
    AtomStep(v, y);
    AtomStep(v, z);
    BinaryStep(v, x, a, y, Eof);
    BinaryStep(v, y, b, z, Eof);
    BinaryStep(v, Binary(x, a, y), b, z, Eof);
    BinaryStep(v, x, a, Binary(y, b, z), Eof);
  }

  lemma BothEmit(x: Expr, a: BinOp, y: Expr, b: BinOp, z: Expr, k: Tokens)
    ensures EmitExpr(Binary(Binary(x, a, y), b, z), k) == TwoOperators(x, a, y, b, z, k)
    ensures EmitExpr(Binary(x, a, Binary(y, b, z)), k) == TwoOperators(x, a, y, b, z, k)
  {
    hide EmitExpr, BinToken, OperatorTree, Grouped, GroupsLeft, AboveUnary;
    var tail := Tok(BinToken(b), EmitExpr(z, k));
    BinaryStep(Luau, Binary(x, a, y), b, z, k);
    BinaryStep(Luau, x, a, y, tail);
    BinaryStep(Luau, x, a, Binary(y, b, z), k);
    BinaryStep(Luau, y, b, z, k);
  }

  /** A unary operator takes in the operator behind its operand if and only if that is listed above it. */
  lemma UnaryReads(v: Version, unop: UnOp, x: Expr, b: BinOp, y: Expr)
    requires Atom(v, x) && Atom(v, y) && Available(v, b)
    ensures ParseExpr(v, 0, Tok(UnToken(unop), EmitExpr(x, Tok(BinToken(b), EmitExpr(y, Eof)))))
            == Ok(if AboveUnary(b) then Unary(unop, Binary(x, b, y)) else Binary(Unary(unop, x), b, y), Eof)
  {
    hide GroupsLeft, AboveUnary, ParseExpr, Canonical, EmitExpr, OperatorTree, Grouped, BinToken, UnToken;
    AtomStep(v, x);
    AtomStep(v, y);
    var tail := Tok(BinToken(b), EmitExpr(y, Eof));
    BinaryStep(v, x, b, y, Eof);
    UnaryStep(v, unop, Binary(x, b, y), Eof);
    UnaryStep(v, unop, x, tail);
    BinaryStep(v, Unary(unop, x), b, y, Eof);
    ReadsIffGrouped(v, if AboveUnary(b) then Unary(unop, Binary(x, b, y)) else Binary(Unary(unop, x), b, y));
  }

  /** Behind an operator a unary operator is always read as part of the right operand. */
  lemma UnaryOperandReads(v: Version, x: Expr, b: BinOp, unop: UnOp, y: Expr)
    requires Atom(v, x) && Atom(v, y) && Available(v, b)
    ensures ParseExpr(v, 0, EmitExpr(x, Tok(BinToken(b), Tok(UnToken(unop), EmitExpr(y, Eof)))))
            == Ok(Binary(x, b, Unary(unop, y)), Eof)
  {
    hide GroupsLeft, AboveUnary, ParseExpr, Canonical, EmitExpr, OperatorTree, Grouped, BinToken, UnToken;
    AtomStep(v, x);
    AtomStep(v, y);
    UnaryStep(v, unop, y, Eof);
    BinaryStep(v, x, b, Unary(unop, y), Eof);
    ReadsIffGrouped(v, Binary(x, b, Unary(unop, y)));
  }

  // ----- the constructors -----

  /** Which operands the binary constructor puts in parentheses. */
  ghost predicate Wrapped(operand: Expr, op: BinOp, side: Side) {
    || (operand.Binary? && side.Left? && !GroupsLeft(operand.op, op))
    || (operand.Binary? && side.Right? && GroupsLeft(op, operand.op))
    || (operand.Unary? && side.Left? && AboveUnary(op))
    || operand.IfExpr?
    || (side.Left? && op in {Lt, BitAnd, BitOr} && EndsWithCast(operand))
  }

  lemma WrapsIff(operand: Expr, op: BinOp, side: Side)
    ensures WrapOperand(operand, op, side) == if Wrapped(operand, op, side) then Paren(operand) else operand
  {
    hide GroupsLeft, AboveUnary, EndsWithCast, Precedence, RightAssociative;
    OrderIsPrecedence(op, op);
    if operand.Binary? {
      OrderIsPrecedence(operand.op, op);
      OrderIsPrecedence(op, operand.op);
      RowsAgree(operand.op, op);
    }
    NoBinaryAtUnary(op);
  }

  lemma RowsAgree(a: BinOp, b: BinOp)
    ensures Precedence(a) == Precedence(b) ==> RightAssociative(a) == RightAssociative(b)
  {
  }

  lemma NoBinaryAtUnary(op: BinOp)
    ensures Precedence(op) != UNARY_PRECEDENCE
  {
  }

  lemma {:induction false} NoCastAtTheEnd(v: Version, e: Expr)
    requires OperatorTree(v, e)
    ensures !EndsWithCast(e)
    decreases e
  {
    match e
    case Binary(_, _, right) => NoCastAtTheEnd(v, right);
    case Unary(_, operand) => NoCastAtTheEnd(v, operand);
    case _ =>
  }

  /** On trees of operators the binary constructor writes the parentheses that grouping needs, and no others. */
  lemma ParensAsNeeded(v: Version, left: Expr, op: BinOp, right: Expr)
    requires OperatorTree(v, left) && OperatorTree(v, right) && Grouped(left) && Grouped(right)
    ensures Grouped(MakeBinary(left, op, right))
    ensures WrapOperand(left, op, Left) == if Grouped(Binary(left, op, Nil)) then left else Paren(left)
    ensures WrapOperand(right, op, Right) == if Grouped(Binary(Nil, op, right)) then right else Paren(right)
  {
    hide GroupsLeft, AboveUnary, NeedsParens, WrapOperand, OperatorTree, EndsWithCast, ExtendsTypes;
    NoCastAtTheEnd(v, left);
    NoCastAtTheEnd(v, right);
    NoIfOnTop(v, left);
    NoIfOnTop(v, right);
    WrapsIff(left, op, Left);
    WrapsIff(right, op, Right);
    assert Grouped(Nil) && Grouped(Paren(left)) && Grouped(Paren(right));
  }

  lemma NoIfOnTop(v: Version, e: Expr)
    requires OperatorTree(v, e)
    ensures !e.IfExpr?
  {
  }

  /** The unary constructor puts every binary operand in parentheses, also one listed above it. */
  lemma UnaryParens(v: Version, op: UnOp, operand: Expr)
    requires OperatorTree(v, operand) && Grouped(operand)
    ensures Grouped(MakeUnary(op, operand))
    ensures MakeUnary(op, operand).operand == if operand.Binary? then Paren(operand) else operand
  {
    hide AboveUnary, GroupsLeft, OperatorTree;
    NoIfOnTop(v, operand);
    assert Grouped(Paren(operand));
    if operand.Binary? {
      assert Grouped(Unary(op, Paren(operand)));
    } else {
      assert MakeUnary(op, operand) == Unary(op, operand);
      assert Grouped(Unary(op, operand));
    }
  }
}
