/**
 No derivation of an expression has fewer parentheses than the printed one. `Shape` forgets the
 parentheses of a derivation over integer literals; `Groups` counts them.
 */
module CalcFewest {
  import opened CalcGrammar
  import opened CalcPrint

  // ------------------------------------------------------------------------ counting

  function GroupsExpr<N>(e: Expr<N>): nat { GroupsTerm(e.first) + GroupsSums(e.more) }

  function GroupsSums<N>(s: Sums<N>): nat {
    match s
    case NoSums => 0
    case Sum(_, t, more) => GroupsTerm(t) + GroupsSums(more)
  }

  function GroupsTerm<N>(t: Term<N>): nat { GroupsPower(t.first) + GroupsProducts(t.more) }

  function GroupsProducts<N>(s: Products<N>): nat {
    match s
    case NoProducts => 0
    case Product(_, p, more) => GroupsPower(p) + GroupsProducts(more)
  }

  function GroupsPower<N>(p: Power<N>): nat { GroupsUnary(p.base) + GroupsExponent(p.exponent) }

  function GroupsExponent<N>(x: Exponent<N>): nat {
    match x
    case NoExponent => 0
    case Raised(p) => GroupsPower(p)
  }

  function GroupsUnary<N>(u: Unary<N>): nat {
    match u
    case Signed(_, x) => GroupsUnary(x)
    case Plain(p) => GroupsPrimary(p)
  }

  function GroupsPrimary<N>(p: Primary<N>): nat {
    match p
    case Literal(_) => 0
    case Constant(_) => 0
    case Call(_, args) => GroupsArgs(args)
    case Group(e) => 1 + GroupsExpr(e)
  }

  function GroupsArgs<N>(a: Args<N>): nat {
    match a
    case NoArgs => 0
    case Args(e, more) => GroupsExpr(e) + GroupsMoreArgs(more)
  }

  function GroupsMoreArgs<N>(a: MoreArgs<N>): nat {
    match a
    case EndArgs => 0
    case Comma(e, more) => GroupsExpr(e) + GroupsMoreArgs(more)
  }

  // ------------------------------------------------------------------------- shapes

  function ExprShape(e: Expr<nat>): Ast { SumsShape(TermShape(e.first), e.more) }

  function SumsShape(left: Ast, s: Sums<nat>): Ast
    decreases s
  {
    match s
    case NoSums => left
    case Sum(minus, t, more) => SumsShape(Plus(minus, left, TermShape(t)), more)
  }

  function TermShape(t: Term<nat>): Ast { ProductsShape(PowerShape(t.first), t.more) }

  function ProductsShape(left: Ast, s: Products<nat>): Ast
    decreases s
  {
    match s
    case NoProducts => left
    case Product(op, p, more) => ProductsShape(Mul(op, left, PowerShape(p)), more)
  }

  function PowerShape(p: Power<nat>): Ast {
    match p.exponent
    case NoExponent => UnaryShape(p.base)
    case Raised(q) => Raise(UnaryShape(p.base), PowerShape(q))
  }

  function UnaryShape(u: Unary<nat>): Ast {
    match u
    case Signed(minus, x) => Sign(minus, UnaryShape(x))
    case Plain(p) => PrimaryShape(p)
  }

  function PrimaryShape(p: Primary<nat>): Ast {
    match p
    case Literal(n) => Int(n)
    case Constant(x) => Var(x)
    case Call(f, args) => Apply(f, ArgsShape(args))
    case Group(e) => ExprShape(e)
  }

  function ArgsShape(a: Args<nat>): Asts {
    match a
    case NoArgs => Nil
    case Args(e, more) => Cons(ExprShape(e), MoreArgsShape(more))
  }

  function MoreArgsShape(a: MoreArgs<nat>): Asts {
    match a
    case EndArgs => Nil
    case Comma(e, more) => Cons(ExprShape(e), MoreArgsShape(more))
  }

  // --------------------------------------------------------------- the printed derivation

  lemma {:induction false} SumsSnocGroups<N>(s: Sums<N>, minus: bool, t: Term<N>)
    ensures GroupsSums(SumsSnoc(s, minus, t)) == GroupsSums(s) + GroupsTerm(t)
    decreases s
  {
    hide GroupsTerm;
    match s
    case NoSums => assert GroupsSums(Sum(minus, t, NoSums)) == GroupsTerm(t) + GroupsSums<N>(NoSums);
    case Sum(_, _, more) => SumsSnocGroups(more, minus, t);
  }

  lemma {:induction false} ProductsSnocGroups<N>(s: Products<N>, op: MulOp, p: Power<N>)
    ensures GroupsProducts(ProductsSnoc(s, op, p)) == GroupsProducts(s) + GroupsPower(p)
    decreases s
  {
    hide GroupsPower;
    match s
    case NoProducts =>
      assert GroupsProducts(Product(op, p, NoProducts)) == GroupsPower(p) + GroupsProducts<N>(NoProducts);
    case Product(_, _, more) => ProductsSnocGroups(more, op, p);
  }

  /** How many the printed expression has: those of its parts, and one more where a level demands it. */
  lemma ExprGroups<N>(A: Arithmetic<N>, a: Ast)
    ensures GroupsExpr(AsExpr(A, a)) ==
      if a.Plus? then GroupsExpr(AsExpr(A, a.left)) + GroupsTerm(AsTerm(A, a.right)) else GroupsTerm(AsTerm(A, a))
  {
    hide GroupsTerm, AsTerm, SumsSnoc;
    if a.Plus? { SumsSnocGroups(AsExpr(A, a.left).more, a.minus, AsTerm(A, a.right)); }
  }

  lemma TermGroups<N>(A: Arithmetic<N>, a: Ast)
    ensures GroupsTerm(AsTerm(A, a)) ==
      if a.Mul? then GroupsTerm(AsTerm(A, a.left)) + GroupsPower(AsPower(A, a.right)) else GroupsPower(AsPower(A, a))
  {
    hide GroupsPower, AsPower, ProductsSnoc;
    if a.Mul? { ProductsSnocGroups(AsTerm(A, a.left).more, a.op, AsPower(A, a.right)); }
  }

  lemma PowerGroups<N>(A: Arithmetic<N>, a: Ast)
    ensures GroupsPower(AsPower(A, a)) ==
      if a.Raise? then GroupsUnary(AsUnary(A, a.left)) + GroupsPower(AsPower(A, a.right))
      else GroupsUnary(AsUnary(A, a))
  {
    hide GroupsUnary, AsUnary;
    if a.Raise? {
      assert GroupsExponent(Raised(AsPower(A, a.right))) == GroupsPower(AsPower(A, a.right));
    } else {
      assert GroupsExponent<N>(NoExponent) == 0;
    }
  }

  lemma UnaryGroups<N>(A: Arithmetic<N>, a: Ast)
    ensures GroupsUnary(AsUnary(A, a)) ==
      if a.Sign? then GroupsUnary(AsUnary(A, a.operand)) else GroupsPrimary(AsPrimary(A, a))
  {
    hide GroupsPrimary, AsPrimary;
  }

  /** A higher level never needs fewer, and at most one more. */
  lemma LevelsCost<N>(A: Arithmetic<N>, a: Ast)
    ensures GroupsExpr(AsExpr(A, a)) <= GroupsTerm(AsTerm(A, a)) <= GroupsPower(AsPower(A, a))
      <= GroupsUnary(AsUnary(A, a)) <= GroupsPrimary(AsPrimary(A, a)) <= 1 + GroupsExpr(AsExpr(A, a))
  {
    ExprGroups(A, a);
    TermGroups(A, a);
    PowerGroups(A, a);
    UnaryGroups(A, a);
    assert Level(a) < 5 ==> GroupsPrimary(AsPrimary(A, a)) == 1 + GroupsExpr(AsExpr(A, a));
    hide GroupsExpr, GroupsTerm, GroupsPower, GroupsUnary, GroupsPrimary, AsExpr, AsTerm, AsPower, AsUnary, AsPrimary;
  }

  // ------------------------------------------------------------------------- fewest

  /** No derivation of the same expression has fewer parentheses than the printed one. */
  lemma {:induction false} ExprFewest(A: Arithmetic<nat>, e: Expr<nat>)
    ensures GroupsExpr(AsExpr(A, ExprShape(e))) <= GroupsExpr(e)
    decreases e
  {
    var left := TermShape(e.first);
    TermFewest(A, e.first);
    LevelsCost(A, left);
    SumsFewest(A, left, GroupsTerm(e.first), e.more);
    hide GroupsTerm, GroupsSums, AsExpr, AsTerm, SumsShape, TermShape;
  }

  lemma {:induction false} SumsFewest(A: Arithmetic<nat>, left: Ast, g: nat, s: Sums<nat>)
    requires GroupsExpr(AsExpr(A, left)) <= g
    ensures GroupsExpr(AsExpr(A, SumsShape(left, s))) <= g + GroupsSums(s)
    decreases s
  {
    hide GroupsExpr, GroupsTerm, AsExpr, AsTerm, TermShape;
    match s
    case NoSums =>
    case Sum(minus, t, more) =>
      var next := Plus(minus, left, TermShape(t));
      TermFewest(A, t);
      ExprGroups(A, next);
      SumsFewest(A, next, g + GroupsTerm(t), more);
  }

  lemma {:induction false} TermFewest(A: Arithmetic<nat>, t: Term<nat>)
    ensures GroupsTerm(AsTerm(A, TermShape(t))) <= GroupsTerm(t)
    decreases t
  {
    var left := PowerShape(t.first);
    PowerFewest(A, t.first);
    LevelsCost(A, left);
    ProductsFewest(A, left, GroupsPower(t.first), t.more);
    hide GroupsPower, GroupsProducts, AsTerm, AsPower, ProductsShape, PowerShape;
  }

  lemma {:induction false} ProductsFewest(A: Arithmetic<nat>, left: Ast, g: nat, s: Products<nat>)
    requires GroupsTerm(AsTerm(A, left)) <= g
    ensures GroupsTerm(AsTerm(A, ProductsShape(left, s))) <= g + GroupsProducts(s)
    decreases s
  {
    hide GroupsTerm, GroupsPower, AsTerm, AsPower, PowerShape;
    match s
    case NoProducts =>
    case Product(op, p, more) =>
      var next := Mul(op, left, PowerShape(p));
      PowerFewest(A, p);
      TermGroups(A, next);
      ProductsFewest(A, next, g + GroupsPower(p), more);
  }

  lemma {:induction false} PowerFewest(A: Arithmetic<nat>, p: Power<nat>)
    ensures GroupsPower(AsPower(A, PowerShape(p))) <= GroupsPower(p)
    decreases p
  {
    var base := UnaryShape(p.base);
    UnaryFewest(A, p.base);
    LevelsCost(A, base);
    match p.exponent
    case NoExponent => hide AsPower, AsUnary, UnaryShape, GroupsUnary;
    case Raised(q) =>
      PowerFewest(A, q);
      PowerGroups(A, Raise(base, PowerShape(q)));
      assert GroupsExponent(p.exponent) == GroupsPower(q);
      hide AsPower, AsUnary, UnaryShape, GroupsUnary;
  }

  lemma {:induction false} UnaryFewest(A: Arithmetic<nat>, u: Unary<nat>)
    ensures GroupsUnary(AsUnary(A, UnaryShape(u))) <= GroupsUnary(u)
    decreases u
  {
    match u
    case Signed(minus, x) =>
      UnaryFewest(A, x);
      UnaryGroups(A, Sign(minus, UnaryShape(x)));
    case Plain(p) =>
      PrimaryFewest(A, p);
      LevelsCost(A, PrimaryShape(p));
      hide AsUnary, AsPrimary, PrimaryShape, GroupsPrimary;
  }

  lemma {:induction false} PrimaryFewest(A: Arithmetic<nat>, p: Primary<nat>)
    ensures GroupsPrimary(AsPrimary(A, PrimaryShape(p))) <= GroupsPrimary(p)
    decreases p
  {
    match p
    case Literal(_) =>
    case Constant(_) =>
    case Call(_, args) => ArgsFewest(A, args); hide GroupsArgs, AsArgs, ArgsShape;
    case Group(e) =>
      ExprFewest(A, e);
      LevelsCost(A, ExprShape(e));
      hide AsPrimary, AsExpr, ExprShape, GroupsExpr;
  }

  lemma {:induction false} ArgsFewest(A: Arithmetic<nat>, a: Args<nat>)
    ensures GroupsArgs(AsArgs(A, ArgsShape(a))) <= GroupsArgs(a)
    decreases a
  {
    hide GroupsExpr, AsExpr, ExprShape, GroupsMoreArgs, AsMoreArgs, MoreArgsShape;
    match a
    case NoArgs =>
    case Args(e, more) =>
      ExprFewest(A, e);
      MoreArgsFewest(A, more);
  }

  lemma {:induction false} MoreArgsFewest(A: Arithmetic<nat>, a: MoreArgs<nat>)
    ensures GroupsMoreArgs(AsMoreArgs(A, MoreArgsShape(a))) <= GroupsMoreArgs(a)
    decreases a
  {
    hide GroupsExpr, AsExpr, ExprShape;
    match a
    case EndArgs =>
    case Comma(e, more) =>
      ExprFewest(A, e);
      MoreArgsFewest(A, more);
  }
}
