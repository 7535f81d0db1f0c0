/**
 The calculator's grammar, as its comment states it: one datatype for each nonterminal, so that a value
 is a derivation. `Yield` gives the tokens a derivation derives and `Value` evaluates it afterwards, as
 the second phase of a two-phase calculator would. Arithmetic is a parameter.
 */
module CalcGrammar {
  datatype Token<N> = Number(value: N) | Name(name: string) | Symbol(sign: char)

  datatype Expr<N> = Expr(first: Term<N>, more: Sums<N>)
  datatype Sums<N> = NoSums | Sum(minus: bool, term: Term<N>, more: Sums<N>)
  datatype Term<N> = Term(first: Power<N>, more: Products<N>)
  datatype Products<N> = NoProducts | Product(op: MulOp, power: Power<N>, more: Products<N>)
  datatype MulOp = Times | Over | Modulo
  datatype Power<N> = Power(base: Unary<N>, exponent: Exponent<N>)
  datatype Exponent<N> = NoExponent | Raised(power: Power<N>)
  datatype Unary<N> = Signed(minus: bool, operand: Unary<N>) | Plain(primary: Primary<N>)
  datatype Primary<N> =
    | Literal(value: N) | Constant(name: string) | Call(name: string, args: Args<N>) | Group(expr: Expr<N>)
  /** What follows the opening parenthesis of a call. */
  datatype Args<N> = NoArgs | Args(first: Expr<N>, more: MoreArgs<N>)
  datatype MoreArgs<N> = EndArgs | Comma(expr: Expr<N>, more: MoreArgs<N>)

  // ----------------------------------------------------------------------- yields

  function YieldExpr<N>(e: Expr<N>): seq<Token<N>> { YieldTerm(e.first) + YieldSums(e.more) }

  function AddSign(minus: bool): char { if minus then '-' else '+' }

  function YieldSums<N>(s: Sums<N>): seq<Token<N>> {
    match s
    case NoSums => []
    case Sum(minus, t, more) => [Symbol(AddSign(minus))] + YieldTerm(t) + YieldSums(more)
  }

  function YieldTerm<N>(t: Term<N>): seq<Token<N>> { YieldPower(t.first) + YieldProducts(t.more) }

  function MulSign(op: MulOp): char {
    match op case Times => '*' case Over => '/' case Modulo => '%'
  }

  function YieldProducts<N>(s: Products<N>): seq<Token<N>> {
    match s
    case NoProducts => []
    case Product(op, p, more) => [Symbol(MulSign(op))] + YieldPower(p) + YieldProducts(more)
  }

  function YieldPower<N>(p: Power<N>): seq<Token<N>> { YieldUnary(p.base) + YieldExponent(p.exponent) }

  function YieldExponent<N>(x: Exponent<N>): seq<Token<N>> {
    match x
    case NoExponent => []
    case Raised(p) => [Symbol('^')] + YieldPower(p)
  }

  function YieldUnary<N>(u: Unary<N>): seq<Token<N>> {
    match u
    case Signed(minus, x) => [Symbol(AddSign(minus))] + YieldUnary(x)
    case Plain(p) => YieldPrimary(p)
  }

  function YieldPrimary<N>(p: Primary<N>): seq<Token<N>> {
    match p
    case Literal(v) => [Number(v)]
    case Constant(n) => [Name(n)]
    case Call(n, args) => [Name(n), Symbol('(')] + YieldArgs(args)
    case Group(e) => [Symbol('(')] + YieldExpr(e) + [Symbol(')')]
  }

  function YieldArgs<N>(a: Args<N>): seq<Token<N>> {
    match a
    case NoArgs => [Symbol(')')]
    case Args(e, more) => YieldExpr(e) + YieldMoreArgs(more)
  }

  function YieldMoreArgs<N>(a: MoreArgs<N>): seq<Token<N>> {
    match a
    case EndArgs => [Symbol(')')]
    case Comma(e, more) => [Symbol(',')] + YieldExpr(e) + YieldMoreArgs(more)
  }

  // ------------------------------------------------------------------- arithmetic

  /** The number operations the calculator uses, whatever numbers are. */
  datatype Arithmetic<!N> = Arithmetic(
    literal: string -> N, isNaN: N -> bool, isZero: N -> bool, isFinite: N -> bool,
    pi: N, e: N,
    neg: N -> N, add: (N, N) -> N, sub: (N, N) -> N, mul: (N, N) -> N, div: (N, N) -> N, mod: (N, N) -> N,
    pow: (N, N) -> N, unary: (string, N) -> N, binary: (string, N, N) -> N)

  datatype Fault = SyntaxError | NameError | TypeError | ZeroDivisionError | MathError
  datatype Result<T> = Ok(value: T) | Err(fault: Fault)

  /** The `FUNCTIONS` table: how many arguments a function takes. */
  const UNARY: set<string> := {"sqrt", "abs", "sin", "cos", "tan", "exp", "log", "floor", "ceil", "round"}
  const BINARY: set<string> := {"pow", "min", "max"}
  /** Lower-case names the table object inherits: `FUNCTIONS[name]` finds something that has no arity. */
  const INHERITED: set<string> := {"constructor", "__proto__"}

  predicate IsFunction(name: string) { name in UNARY || name in BINARY }

  predicate IsCallable(name: string) { IsFunction(name) || name in INHERITED }

  function ConstantValue<N>(A: Arithmetic<N>, name: string): Result<N> {
    if name == "pi" then Ok(A.pi)
    else if name == "e" then Ok(A.e)
    else if IsFunction(name) then Err(SyntaxError)
    else Err(NameError)
  }

  function CallValue<N>(A: Arithmetic<N>, name: string, vs: seq<N>): Result<N> {
    if name in UNARY && |vs| == 1 then Ok(A.unary(name, vs[0]))
    else if name in BINARY && |vs| == 2 then Ok(A.binary(name, vs[0], vs[1]))
    else Err(TypeError)
  }

  function Multiply<N>(A: Arithmetic<N>, op: MulOp, x: N, y: N): Result<N> {
    match op
    case Times => Ok(A.mul(x, y))
    case Over => if A.isZero(y) then Err(ZeroDivisionError) else Ok(A.div(x, y))
    case Modulo => if A.isZero(y) then Err(ZeroDivisionError) else Ok(A.mod(x, y))
  }

  function Add<N>(A: Arithmetic<N>, minus: bool, x: N, y: N): N { if minus then A.sub(x, y) else A.add(x, y) }

  // ----------------------------------------------------------------------- values

  function ExprValue<N>(A: Arithmetic<N>, e: Expr<N>): Result<N>
    decreases e
  {
    match TermValue(A, e.first)
    case Err(f) => Err(f)
    case Ok(v) => SumsValue(A, v, e.more)
  }

  function SumsValue<N>(A: Arithmetic<N>, left: N, s: Sums<N>): Result<N>
    decreases s
  {
    match s
    case NoSums => Ok(left)
    case Sum(minus, t, more) =>
      match TermValue(A, t)
      case Err(f) => Err(f)
      case Ok(v) => SumsValue(A, Add(A, minus, left, v), more)
  }

  function TermValue<N>(A: Arithmetic<N>, t: Term<N>): Result<N>
    decreases t
  {
    match PowerValue(A, t.first)
    case Err(f) => Err(f)
    case Ok(v) => ProductsValue(A, v, t.more)
  }

  function ProductsValue<N>(A: Arithmetic<N>, left: N, s: Products<N>): Result<N>
    decreases s
  {
    match s
    case NoProducts => Ok(left)
    case Product(op, p, more) =>
      match PowerValue(A, p)
      case Err(f) => Err(f)
      case Ok(v) =>
        match Multiply(A, op, left, v)
        case Err(f) => Err(f)
        case Ok(w) => ProductsValue(A, w, more)
  }

  function PowerValue<N>(A: Arithmetic<N>, p: Power<N>): Result<N>
    decreases p
  {
    match UnaryValue(A, p.base)
    case Err(f) => Err(f)
    case Ok(v) => ExponentValue(A, v, p.exponent)
  }

  function ExponentValue<N>(A: Arithmetic<N>, base: N, x: Exponent<N>): Result<N>
    decreases x
  {
    match x
    case NoExponent => Ok(base)
    case Raised(p) =>
      match PowerValue(A, p)
      case Err(f) => Err(f)
      case Ok(v) => Ok(A.pow(base, v))
  }

  function UnaryValue<N>(A: Arithmetic<N>, u: Unary<N>): Result<N>
    decreases u
  {
    match u
    case Plain(p) => PrimaryValue(A, p)
    case Signed(minus, x) =>
      match UnaryValue(A, x)
      case Err(f) => Err(f)
      case Ok(v) => Ok(if minus then A.neg(v) else v)
  }

  function PrimaryValue<N>(A: Arithmetic<N>, p: Primary<N>): Result<N>
    decreases p
  {
    match p
    case Literal(v) => Ok(v)
    case Constant(n) => ConstantValue(A, n)
    case Group(e) => ExprValue(A, e)
    case Call(n, args) =>
      if !IsCallable(n) then Err(NameError)
      else
        match ArgsValue(A, args)
        case Err(f) => Err(f)
        case Ok(vs) => CallValue(A, n, vs)
  }

  function ArgsValue<N>(A: Arithmetic<N>, a: Args<N>): Result<seq<N>>
    decreases a
  {
    match a
    case NoArgs => Ok([])
    case Args(e, more) =>
      match ExprValue(A, e)
      case Err(f) => Err(f)
      case Ok(v) => MoreArgsValue(A, [v], more)
  }

  function MoreArgsValue<N>(A: Arithmetic<N>, vs: seq<N>, a: MoreArgs<N>): Result<seq<N>>
    decreases a
  {
    match a
    case EndArgs => Ok(vs)
    case Comma(e, more) =>
      match ExprValue(A, e)
      case Err(f) => Err(f)
      case Ok(v) => MoreArgsValue(A, vs + [v], more)
  }
}
