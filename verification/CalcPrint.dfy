/**
 Text round trip: an abstract expression printed with the fewest parentheses its operators allow means,
 to the calculator, what the expression means.
 */
module CalcPrint {
  import opened Decimals
  import opened CalcGrammar
  import opened Calc
  import opened CalcText

  datatype Ast =
    | Int(value: nat)
    | Var(name: string)
    | Apply(name: string, args: Asts)
    | Sign(minus: bool, operand: Ast)
    | Raise(left: Ast, right: Ast)
    | Mul(op: MulOp, left: Ast, right: Ast)
    | Plus(minus: bool, left: Ast, right: Ast)

  datatype Asts = Nil | Cons(head: Ast, tail: Asts)

  // ---------------------------------------------------------------------- meaning

  function Meaning<N>(A: Arithmetic<N>, a: Ast): Result<N>
    decreases a
  {
    match a
    case Int(n) => Ok(A.literal(Digits(n)))
    case Var(x) => ConstantValue(A, x)
    case Apply(f, args) =>
      if !IsCallable(f) then Err(NameError)
      else (match Meanings(A, [], args) case Err(e) => Err(e) case Ok(vs) => CallValue(A, f, vs))
    case Sign(minus, x) =>
      (match Meaning(A, x) case Err(e) => Err(e) case Ok(v) => Ok(if minus then A.neg(v) else v))
    case Raise(l, r) => Both(Meaning(A, l), Meaning(A, r), (x, y) => Ok(A.pow(x, y)))
    case Mul(op, l, r) => Both(Meaning(A, l), Meaning(A, r), (x, y) => Multiply(A, op, x, y))
    case Plus(minus, l, r) => Both(Meaning(A, l), Meaning(A, r), (x, y) => Ok(Add(A, minus, x, y)))
  }

  /** Left operand first. */
  function Both<N>(l: Result<N>, r: Result<N>, f: (N, N) -> Result<N>): Result<N> {
    if l.Err? then l else if r.Err? then r else f(l.value, r.value)
  }

  function Meanings<N>(A: Arithmetic<N>, vs: seq<N>, args: Asts): Result<seq<N>>
    decreases args
  {
    match args
    case Nil => Ok(vs)
    case Cons(a, rest) => match Meaning(A, a) case Err(e) => Err(e) case Ok(v) => Meanings(A, vs + [v], rest)
  }

  // --------------------------------------------------------------------- printing

  /** How tightly an expression holds together: sums 1, products 2, powers 3, signs 4, primaries 5. */
  function Level(a: Ast): nat {
    match a
    case Plus(_, _, _) => 1
    case Mul(_, _, _) => 2
    case Raise(_, _) => 3
    case Sign(_, _) => 4
    case _ => 5
  }

  /** The text of an expression where one of level p or more is wanted. */
  function PrintAt(a: Ast, p: nat): string
    requires 1 <= p <= 5
    decreases a, if Level(a) < p then 1 else 0
  {
    if Level(a) < p then "(" + PrintAt(a, 1) + ")"
    else
      match a
      case Int(n) => Digits(n)
      case Var(x) => x
      case Apply(f, args) => f + "(" + PrintArgs(args) + ")"
      case Sign(minus, x) => [AddSign(minus)] + PrintAt(x, 4)
      case Raise(l, r) => PrintAt(l, 4) + "^" + PrintAt(r, 3)
      case Mul(op, l, r) => PrintAt(l, 2) + [MulSign(op)] + PrintAt(r, 3)
      case Plus(minus, l, r) => PrintAt(l, 1) + [AddSign(minus)] + PrintAt(r, 2)
  }

  function PrintArgs(args: Asts): string
    decreases args
  {
    match args
    case Nil => ""
    case Cons(a, Nil) => PrintAt(a, 1)
    case Cons(a, rest) => PrintAt(a, 1) + "," + PrintArgs(rest)
  }

  function Print(a: Ast): string { PrintAt(a, 1) }

  /** Names the tokenizer reads back as they are. */
  predicate IsLowerName(s: string) {
    s != "" && IsNameStart(s[0]) && forall i :: 0 <= i < |s| ==> IsNamePart(s[i]) && !('A' <= s[i] <= 'Z')
  }

  predicate WellNamed(a: Ast)
    decreases a
  {
    match a
    case Int(_) => true
    case Var(x) => IsLowerName(x)
    case Apply(f, args) => IsLowerName(f) && AllWellNamed(args)
    case Sign(_, x) => WellNamed(x)
    case Raise(l, r) => WellNamed(l) && WellNamed(r)
    case Mul(_, l, r) => WellNamed(l) && WellNamed(r)
    case Plus(_, l, r) => WellNamed(l) && WellNamed(r)
  }

  predicate AllWellNamed(args: Asts)
    decreases args
  {
    args.Nil? || (WellNamed(args.head) && AllWellNamed(args.tail))
  }

  // -------------------------------------------------- the derivation of the printed text

  function Rank(a: Ast, p: nat): nat
    requires p <= 5
  {
    if Level(a) < p then 20 - p else 10 - p
  }

  function AsExpr<N>(A: Arithmetic<N>, a: Ast): Expr<N>
    decreases a, Rank(a, 1)
  {
    if a.Plus? then SnocSum(AsExpr(A, a.left), a.minus, AsTerm(A, a.right)) else Expr(AsTerm(A, a), NoSums)
  }

  function AsTerm<N>(A: Arithmetic<N>, a: Ast): Term<N>
    decreases a, Rank(a, 2)
  {
    if a.Mul? then SnocProduct(AsTerm(A, a.left), a.op, AsPower(A, a.right)) else Term(AsPower(A, a), NoProducts)
  }

  function AsPower<N>(A: Arithmetic<N>, a: Ast): Power<N>
    decreases a, Rank(a, 3)
  {
    if a.Raise? then Power(AsUnary(A, a.left), Raised(AsPower(A, a.right))) else Power(AsUnary(A, a), NoExponent)
  }

  function AsUnary<N>(A: Arithmetic<N>, a: Ast): Unary<N>
    decreases a, Rank(a, 4)
  {
    if a.Sign? then Signed(a.minus, AsUnary(A, a.operand)) else Plain(AsPrimary(A, a))
  }

  function AsPrimary<N>(A: Arithmetic<N>, a: Ast): Primary<N>
    decreases a, Rank(a, 5)
  {
    match a
    case Int(n) => Literal(A.literal(Digits(n)))
    case Var(x) => Constant(x)
    case Apply(f, args) => Call(f, AsArgs(A, args))
    case _ => Group(AsExpr(A, a))
  }

  function AsArgs<N>(A: Arithmetic<N>, args: Asts): Args<N>
    decreases args, 0
  {
    match args
    case Nil => NoArgs
    case Cons(a, rest) => Args(AsExpr(A, a), AsMoreArgs(A, rest))
  }

  function AsMoreArgs<N>(A: Arithmetic<N>, args: Asts): MoreArgs<N>
    decreases args, 0
  {
    match args
    case Nil => EndArgs
    case Cons(a, rest) => Comma(AsExpr(A, a), AsMoreArgs(A, rest))
  }

  function SnocSum<N>(e: Expr<N>, minus: bool, t: Term<N>): Expr<N> { Expr(e.first, SumsSnoc(e.more, minus, t)) }

  function SumsSnoc<N>(s: Sums<N>, minus: bool, t: Term<N>): Sums<N> {
    match s
    case NoSums => Sum(minus, t, NoSums)
    case Sum(m, u, more) => Sum(m, u, SumsSnoc(more, minus, t))
  }

  function SnocProduct<N>(t: Term<N>, op: MulOp, p: Power<N>): Term<N> { Term(t.first, ProductsSnoc(t.more, op, p)) }

  function ProductsSnoc<N>(s: Products<N>, op: MulOp, p: Power<N>): Products<N> {
    match s
    case NoProducts => Product(op, p, NoProducts)
    case Product(o, q, more) => Product(o, q, ProductsSnoc(more, op, p))
  }

  // ----------------------------------------------------------- it has the same meaning

  lemma {:induction false} SumsSnocValue<N>(A: Arithmetic<N>, left: N, s: Sums<N>, minus: bool, t: Term<N>)
    ensures SumsValue(A, left, SumsSnoc(s, minus, t)) ==
      Both(SumsValue(A, left, s), TermValue(A, t), (x, y) => Ok(Add(A, minus, x, y)))
    decreases s
  {
    hide TermValue, Add;
    match s
    case NoSums => assert forall x :: SumsValue(A, x, NoSums) == Ok(x);
    case Sum(m, u, more) =>
      var v := TermValue(A, u);
      if v.Ok? { SumsSnocValue(A, Add(A, m, left, v.value), more, minus, t); }
  }

  lemma {:induction false} ProductsSnocValue<N>(A: Arithmetic<N>, left: N, s: Products<N>, op: MulOp, p: Power<N>)
    ensures ProductsValue(A, left, ProductsSnoc(s, op, p)) ==
      Both(ProductsValue(A, left, s), PowerValue(A, p), (x, y) => Multiply(A, op, x, y))
    decreases s
  {
    hide PowerValue, Multiply;
    match s
    case NoProducts => assert forall x :: ProductsValue(A, x, NoProducts) == Ok(x);
    case Product(o, q, more) =>
      var v := PowerValue(A, q);
      if v.Ok? {
        var w := Multiply(A, o, left, v.value);
        if w.Ok? { ProductsSnocValue(A, w.value, more, op, p); }
      }
  }

  lemma {:induction false} ExprMeans<N>(A: Arithmetic<N>, a: Ast)
    ensures ExprValue(A, AsExpr(A, a)) == Meaning(A, a)
    decreases a, Rank(a, 1)
  {
    hide TermValue, Add, AsTerm;
    if a.Plus? {
      ExprMeans(A, a.left);
      TermMeans(A, a.right);
      var e := AsExpr(A, a.left);
      var v := TermValue(A, e.first);
      if v.Ok? { SumsSnocValue(A, v.value, e.more, a.minus, AsTerm(A, a.right)); }
    } else {
      TermMeans(A, a);
      assert forall x :: SumsValue(A, x, NoSums) == Ok(x);
    }
  }

  lemma {:induction false} TermMeans<N>(A: Arithmetic<N>, a: Ast)
    ensures TermValue(A, AsTerm(A, a)) == Meaning(A, a)
    decreases a, Rank(a, 2)
  {
    hide PowerValue, Multiply, AsPower;
    if a.Mul? {
      TermMeans(A, a.left);
      PowerMeans(A, a.right);
      var t := AsTerm(A, a.left);
      var v := PowerValue(A, t.first);
      if v.Ok? { ProductsSnocValue(A, v.value, t.more, a.op, AsPower(A, a.right)); }
    } else {
      PowerMeans(A, a);
      assert forall x :: ProductsValue(A, x, NoProducts) == Ok(x);
    }
  }

  lemma {:induction false} PowerMeans<N>(A: Arithmetic<N>, a: Ast)
    ensures PowerValue(A, AsPower(A, a)) == Meaning(A, a)
    decreases a, Rank(a, 3)
  {
    hide PowerValue, UnaryValue, AsUnary;
    if a.Raise? {
      UnaryMeans(A, a.left);
      PowerMeans(A, a.right);
      RaisedPower(A, AsUnary(A, a.left), AsPower(A, a.right));
    } else {
      UnaryMeans(A, a);
      BarePower(A, AsUnary(A, a));
    }
  }

  lemma {:induction false} UnaryMeans<N>(A: Arithmetic<N>, a: Ast)
    ensures UnaryValue(A, AsUnary(A, a)) == Meaning(A, a)
    decreases a, Rank(a, 4)
  {
    hide PrimaryValue, AsPrimary;
    if a.Sign? { UnaryMeans(A, a.operand); } else { PrimaryMeans(A, a); }
  }

  lemma {:induction false} PrimaryMeans<N>(A: Arithmetic<N>, a: Ast)
    ensures PrimaryValue(A, AsPrimary(A, a)) == Meaning(A, a)
    decreases a, Rank(a, 5)
  {
    hide ExprValue, AsExpr, ArgsValue, AsArgs, ConstantValue, CallValue, IsCallable;
    match a
    case Int(_) =>
    case Var(_) =>
    case Apply(_, args) => ArgsMean(A, args);
    case _ => ExprMeans(A, a);
  }

  lemma {:induction false} ArgsMean<N>(A: Arithmetic<N>, args: Asts)
    ensures ArgsValue(A, AsArgs(A, args)) == Meanings(A, [], args)
    decreases args, 0
  {
    hide ExprValue, AsExpr, Meaning, AsMoreArgs, MoreArgsValue;
    match args
    case Nil =>
    case Cons(a, rest) =>
      ExprMeans(A, a);
      var v := Meaning(A, a);
      if v.Ok? {
        assert [] + [v.value] == [v.value];
        MoreArgsMean(A, [v.value], rest);
      }
  }

  lemma {:induction false} MoreArgsMean<N>(A: Arithmetic<N>, vs: seq<N>, args: Asts)
    ensures MoreArgsValue(A, vs, AsMoreArgs(A, args)) == Meanings(A, vs, args)
    decreases args, 0
  {
    hide ExprValue, AsExpr, Meaning;
    match args
    case Nil =>
    case Cons(a, rest) =>
      ExprMeans(A, a);
      var v := Meaning(A, a);
      if v.Ok? { MoreArgsMean(A, vs + [v.value], rest); }
  }

  // --------------------------------------------------------- tokens with their texts

  datatype Piece<N> = Piece(token: Token<N>, text: string)

  function Sym<N>(c: char): Piece<N> { Piece(Symbol(c), [c]) }

  function TokensOf<N>(ps: seq<Piece<N>>): seq<Token<N>> {
    seq(|ps|, i requires 0 <= i < |ps| => ps[i].token)
  }

  function TextOf<N>(ps: seq<Piece<N>>): string {
    if ps == [] then "" else ps[0].text + TextOf(ps[1..])
  }

  /** The printed expression, token by token. */
  function Show<N>(A: Arithmetic<N>, a: Ast, p: nat): seq<Piece<N>>
    requires 1 <= p <= 5
    decreases a, if Level(a) < p then 1 else 0
  {
    if Level(a) < p then [Sym('(')] + Show(A, a, 1) + [Sym(')')]
    else
      match a
      case Int(n) => [Piece(Number(A.literal(Digits(n))), Digits(n))]
      case Var(x) => [Piece(Name(x), x)]
      case Apply(f, args) => [Piece(Name(f), f), Sym('(')] + ShowArgs(A, args) + [Sym(')')]
      case Sign(minus, x) => [Sym(AddSign(minus))] + Show(A, x, 4)
      case Raise(l, r) => Show(A, l, 4) + [Sym('^')] + Show(A, r, 3)
      case Mul(op, l, r) => Show(A, l, 2) + [Sym(MulSign(op))] + Show(A, r, 3)
      case Plus(minus, l, r) => Show(A, l, 1) + [Sym(AddSign(minus))] + Show(A, r, 2)
  }

  function ShowArgs<N>(A: Arithmetic<N>, args: Asts): seq<Piece<N>>
    decreases args
  {
    match args
    case Nil => []
    case Cons(a, Nil) => Show(A, a, 1)
    case Cons(a, rest) => Show(A, a, 1) + [Sym(',')] + ShowArgs(A, rest)
  }

  lemma TokensOfConcat<N>(a: seq<Piece<N>>, b: seq<Piece<N>>)
    ensures TokensOf(a + b) == TokensOf(a) + TokensOf(b)
  {}

  lemma TokensOfInfix<N>(a: seq<Piece<N>>, x: Piece<N>, b: seq<Piece<N>>)
    ensures TokensOf(a + [x] + b) == TokensOf(a) + [x.token] + TokensOf(b)
    ensures TokensOf([x] + b) == [x.token] + TokensOf(b)
    ensures TokensOf(a + [x]) == TokensOf(a) + [x.token]
  {}

  lemma {:induction false} TextOfConcat<N>(a: seq<Piece<N>>, b: seq<Piece<N>>)
    ensures TextOf(a + b) == TextOf(a) + TextOf(b)
  {
    if a == [] {
      assert a + b == b;
    } else {
      assert (a + b)[1..] == a[1..] + b;
      TextOfConcat(a[1..], b);
    }
  }

  lemma TextOfOne<N>(x: Piece<N>)
    ensures TextOf([x]) == x.text
  {}

  lemma TextOfInfix<N>(a: seq<Piece<N>>, x: Piece<N>, b: seq<Piece<N>>)
    ensures TextOf(a + [x] + b) == TextOf(a) + x.text + TextOf(b)
    ensures TextOf([x] + b) == x.text + TextOf(b)
    ensures TextOf(a + [x]) == TextOf(a) + x.text
  {
    hide TextOf;
    TextOfConcat(a + [x], b);
    TextOfConcat(a, [x]);
    TextOfConcat([x], b);
    TextOfOne(x);
  }

  /** The pieces spell the printed text. */
  lemma {:induction false} ShowText<N>(A: Arithmetic<N>, a: Ast, p: nat)
    requires 1 <= p <= 5
    ensures TextOf(Show(A, a, p)) == PrintAt(a, p)
    decreases a, if Level(a) < p then 2 else 1
  {
    hide TextOf, Digits;
    if Level(a) < p {
      ShowText(A, a, 1);
      TextOfInfix([Sym('(')] + Show(A, a, 1), Sym(')'), []);
      TextOfInfix([], Sym('('), Show(A, a, 1));
    } else {
      ShowTextRaw(A, a, p);
    }
  }

  lemma {:induction false} ShowTextRaw<N>(A: Arithmetic<N>, a: Ast, p: nat)
    requires 1 <= p <= Level(a) <= 5
    ensures TextOf(Show(A, a, p)) == PrintAt(a, p)
    decreases a, 0
  {
    hide TextOf, Digits, ShowArgs, PrintArgs;
    match a
    case Int(n) => TextOfOne(Piece(Number(A.literal(Digits(n))), Digits(n)));
    case Var(x) => TextOfOne<N>(Piece(Name(x), x));
    case Apply(f, args) =>
      ShowArgsText(A, args);
      var open: seq<Piece<N>> := [Piece(Name(f), f), Sym('(')];
      TextOfInfix<N>([], Piece(Name(f), f), [Sym('(')]);
      assert [Piece(Name(f), f)] + [Sym('(')] == open;
      TextOfOne<N>(Sym('('));
      TextOfConcat(open, ShowArgs(A, args));
      TextOfInfix(open + ShowArgs(A, args), Sym(')'), []);
    case Sign(minus, x) =>
      ShowText(A, x, 4);
      TextOfInfix([], Sym(AddSign(minus)), Show(A, x, 4));
    case Raise(l, r) =>
      ShowText(A, l, 4);
      ShowText(A, r, 3);
      TextOfInfix(Show(A, l, 4), Sym('^'), Show(A, r, 3));
    case Mul(op, l, r) =>
      ShowText(A, l, 2);
      ShowText(A, r, 3);
      TextOfInfix(Show(A, l, 2), Sym(MulSign(op)), Show(A, r, 3));
    case Plus(minus, l, r) =>
      ShowText(A, l, 1);
      ShowText(A, r, 2);
      TextOfInfix(Show(A, l, 1), Sym(AddSign(minus)), Show(A, r, 2));
  }

  lemma {:induction false} ShowArgsText<N>(A: Arithmetic<N>, args: Asts)
    ensures TextOf(ShowArgs(A, args)) == PrintArgs(args)
    decreases args
  {
    hide Show, PrintAt;
    match args
    case Nil =>
    case Cons(a, rest) =>
      ShowText(A, a, 1);
      if rest.Cons? {
        ShowArgsText(A, rest);
        TextOfInfix(Show(A, a, 1), Sym(','), ShowArgs(A, rest));
      }
      hide TextOf;
  }

  // -------------------------------------------------- the pieces' tokens are the yield

  lemma {:induction false} SumsSnocYield<N>(s: Sums<N>, minus: bool, t: Term<N>)
    ensures YieldSums(SumsSnoc(s, minus, t)) == YieldSums(s) + ([Symbol(AddSign(minus))] + YieldTerm(t))
    decreases s
  {
    hide YieldTerm;
    match s
    case NoSums =>
      assert YieldSums(Sum(minus, t, NoSums)) == [Symbol(AddSign(minus))] + YieldTerm(t) + YieldSums(NoSums);
    case Sum(m, u, more) => SumsSnocYield(more, minus, t);
  }

  lemma {:induction false} ProductsSnocYield<N>(s: Products<N>, op: MulOp, p: Power<N>)
    ensures YieldProducts(ProductsSnoc(s, op, p)) == YieldProducts(s) + ([Symbol(MulSign(op))] + YieldPower(p))
    decreases s
  {
    hide YieldPower;
    match s
    case NoProducts =>
      assert YieldProducts(Product(op, p, NoProducts)) == [Symbol(MulSign(op))] + YieldPower(p)
        + YieldProducts(NoProducts);
    case Product(o, q, more) => ProductsSnocYield(more, op, p);
  }

  lemma {:induction false} ExprYield<N>(A: Arithmetic<N>, a: Ast)
    ensures TokensOf(Show(A, a, 1)) == YieldExpr(AsExpr(A, a))
    decreases a, Rank(a, 1)
  {
    hide YieldTerm, TokensOf, AsTerm, SumsSnoc;
    if a.Plus? {
      ExprYield(A, a.left);
      TermYield(A, a.right);
      TokensOfInfix(Show(A, a.left, 1), Sym(AddSign(a.minus)), Show(A, a.right, 2));
      SumsSnocYield(AsExpr(A, a.left).more, a.minus, AsTerm(A, a.right));
      hide YieldSums;
    } else {
      TermYield(A, a);
      SameShow(A, a, 1);
    }
  }

  /** An expression that is not of the wanted level itself prints as at the next level. */
  lemma SameShow<N>(A: Arithmetic<N>, a: Ast, p: nat)
    requires 1 <= p < 5 && Level(a) != p
    ensures Show(A, a, p) == Show(A, a, p + 1)
  {}

  lemma {:induction false} TermYield<N>(A: Arithmetic<N>, a: Ast)
    ensures TokensOf(Show(A, a, 2)) == YieldTerm(AsTerm(A, a))
    decreases a, Rank(a, 2)
  {
    hide YieldPower, TokensOf, AsPower, ProductsSnoc;
    if a.Mul? {
      TermYield(A, a.left);
      PowerYield(A, a.right);
      TokensOfInfix(Show(A, a.left, 2), Sym(MulSign(a.op)), Show(A, a.right, 3));
      ProductsSnocYield(AsTerm(A, a.left).more, a.op, AsPower(A, a.right));
      hide YieldProducts;
    } else {
      PowerYield(A, a);
      SameShow(A, a, 2);
    }
  }

  lemma {:induction false} PowerYield<N>(A: Arithmetic<N>, a: Ast)
    ensures TokensOf(Show(A, a, 3)) == YieldPower(AsPower(A, a))
    decreases a, Rank(a, 3)
  {
    hide YieldUnary, TokensOf, AsUnary;
    if a.Raise? {
      UnaryYield(A, a.left);
      PowerYield(A, a.right);
      TokensOfInfix(Show(A, a.left, 4), Sym('^'), Show(A, a.right, 3));
      assert YieldExponent(Raised(AsPower(A, a.right))) == [Symbol('^')] + YieldPower(AsPower(A, a.right));
    } else {
      UnaryYield(A, a);
      SameShow(A, a, 3);
      assert YieldExponent<N>(NoExponent) == [];
    }
  }

  lemma {:induction false} UnaryYield<N>(A: Arithmetic<N>, a: Ast)
    ensures TokensOf(Show(A, a, 4)) == YieldUnary(AsUnary(A, a))
    decreases a, Rank(a, 4)
  {
    hide YieldPrimary, TokensOf, AsPrimary;
    if a.Sign? {
      UnaryYield(A, a.operand);
      TokensOfInfix([], Sym(AddSign(a.minus)), Show(A, a.operand, 4));
    } else {
      PrimaryYield(A, a);
      SameShow(A, a, 4);
    }
  }

  lemma {:induction false} PrimaryYield<N>(A: Arithmetic<N>, a: Ast)
    ensures TokensOf(Show(A, a, 5)) == YieldPrimary(AsPrimary(A, a))
    decreases a, Rank(a, 5)
  {
    hide YieldExpr, YieldArgs, AsExpr, AsArgs, ShowArgs, Digits;
    match a
    case Int(_) =>
    case Var(_) =>
    case Apply(f, args) =>
      ArgsYield(A, args);
      var open: seq<Piece<N>> := [Piece(Name(f), f), Sym('(')];
      TokensOfConcat(open, ShowArgs(A, args) + [Sym(')')]);
      assert Show(A, a, 5) == open + (ShowArgs(A, args) + [Sym(')')]);
      assert TokensOf(open) == [Name(f), Symbol('(')];
    case _ =>
      ExprYield(A, a);
      TokensOfInfix([Sym('(')] + Show(A, a, 1), Sym(')'), []);
      TokensOfInfix([], Sym('('), Show(A, a, 1));
  }

  lemma {:induction false} ArgsYield<N>(A: Arithmetic<N>, args: Asts)
    ensures TokensOf(ShowArgs(A, args) + [Sym(')')]) == YieldArgs(AsArgs(A, args))
    decreases args, 1
  {
    hide YieldExpr, AsExpr, Show, YieldMoreArgs, AsMoreArgs;
    match args
    case Nil =>
    case Cons(a, rest) =>
      ExprYield(A, a);
      MoreArgsYield(A, rest);
      TokensOfConcat(Show(A, a, 1), Tail(A, rest));
      TailShow(A, a, rest);
  }

  /** What is shown after an argument. */
  function Tail<N>(A: Arithmetic<N>, rest: Asts): seq<Piece<N>> {
    if rest.Nil? then [Sym(')')] else [Sym(',')] + (ShowArgs(A, rest) + [Sym(')')])
  }

  lemma TailShow<N>(A: Arithmetic<N>, a: Ast, rest: Asts)
    ensures ShowArgs(A, Cons(a, rest)) + [Sym(')')] == Show(A, a, 1) + Tail(A, rest)
  {}

  lemma {:induction false} MoreArgsYield<N>(A: Arithmetic<N>, rest: Asts)
    ensures TokensOf(Tail(A, rest)) == YieldMoreArgs(AsMoreArgs(A, rest))
    decreases rest, 1
  {
    hide YieldExpr, AsExpr, Show;
    match rest
    case Nil =>
    case Cons(a, more) =>
      ExprYield(A, a);
      MoreArgsYield(A, more);
      TailShow(A, a, more);
      TokensOfConcat(Show(A, a, 1), Tail(A, more));
      TokensOfInfix([], Sym(','), ShowArgs(A, rest) + [Sym(')')]);
      hide TokensOf, ShowArgs;
  }
}
