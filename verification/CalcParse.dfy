/**
 The calculator's recursive descent as the first phase of a two-phase calculator: it reads a derivation
 off the front of a token list. It reads nothing the grammar does not derive (`Sound*`) and misses
 nothing it does derive (`Complete*`), so the grammar is unambiguous.
 */
module CalcParse {
  import opened CalcGrammar

  /** A derivation and the tokens after it, or no derivation. */
  datatype Parsed<T, N> = Stuck | Read(tree: T, rest: seq<Token<N>>)

  predicate Starts<N>(ts: seq<Token<N>>, c: char) { ts != [] && ts[0].Symbol? && ts[0].sign == c }

  function ParseExpr<N>(ts: seq<Token<N>>): (r: Parsed<Expr<N>, N>)
    ensures r.Read? ==> |r.rest| < |ts|
    decreases |ts|, 4
  {
    match ParseTerm(ts)
    case Stuck => Stuck
    case Read(t, rest) =>
      match ParseSums(rest)
      case Stuck => Stuck
      case Read(s, rest') => Read(Expr(t, s), rest')
  }

  function ParseSums<N>(ts: seq<Token<N>>): (r: Parsed<Sums<N>, N>)
    ensures r.Read? ==> |r.rest| <= |ts|
    decreases |ts|, 0
  {
    if Starts(ts, '+') || Starts(ts, '-') then
      match ParseTerm(ts[1..])
      case Stuck => Stuck
      case Read(t, rest) =>
        match ParseSums(rest)
        case Stuck => Stuck
        case Read(s, rest') => Read(Sum(ts[0].sign == '-', t, s), rest')
    else Read(NoSums, ts)
  }

  function ParseTerm<N>(ts: seq<Token<N>>): (r: Parsed<Term<N>, N>)
    ensures r.Read? ==> |r.rest| < |ts|
    decreases |ts|, 3
  {
    match ParsePower(ts)
    case Stuck => Stuck
    case Read(p, rest) =>
      match ParseProducts(rest)
      case Stuck => Stuck
      case Read(s, rest') => Read(Term(p, s), rest')
  }

  function MulOpOf(c: char): MulOp { if c == '*' then Times else if c == '/' then Over else Modulo }

  lemma MulSignOf(c: char)
    requires c == '*' || c == '/' || c == '%'
    ensures MulSign(MulOpOf(c)) == c
  {}

  function ParseProducts<N>(ts: seq<Token<N>>): (r: Parsed<Products<N>, N>)
    ensures r.Read? ==> |r.rest| <= |ts|
    decreases |ts|, 0
  {
    if Starts(ts, '*') || Starts(ts, '/') || Starts(ts, '%') then
      match ParsePower(ts[1..])
      case Stuck => Stuck
      case Read(p, rest) =>
        match ParseProducts(rest)
        case Stuck => Stuck
        case Read(s, rest') => Read(Product(MulOpOf(ts[0].sign), p, s), rest')
    else Read(NoProducts, ts)
  }

  function ParsePower<N>(ts: seq<Token<N>>): (r: Parsed<Power<N>, N>)
    ensures r.Read? ==> |r.rest| < |ts|
    decreases |ts|, 2
  {
    match ParseUnary(ts)
    case Stuck => Stuck
    case Read(u, rest) =>
      if Starts(rest, '^') then
        match ParsePower(rest[1..])
        case Stuck => Stuck
        case Read(p, rest') => Read(Power(u, Raised(p)), rest')
      else Read(Power(u, NoExponent), rest)
  }

  function ParseUnary<N>(ts: seq<Token<N>>): (r: Parsed<Unary<N>, N>)
    ensures r.Read? ==> |r.rest| < |ts|
    decreases |ts|, 1
  {
    if Starts(ts, '-') || Starts(ts, '+') then
      match ParseUnary(ts[1..])
      case Stuck => Stuck
      case Read(u, rest) => Read(Signed(ts[0].sign == '-', u), rest)
    else
      match ParsePrimary(ts)
      case Stuck => Stuck
      case Read(p, rest) => Read(Plain(p), rest)
  }

  function ParsePrimary<N>(ts: seq<Token<N>>): (r: Parsed<Primary<N>, N>)
    ensures r.Read? ==> |r.rest| < |ts|
    decreases |ts|, 0
  {
    if ts == [] then Stuck
    else if ts[0].Number? then Read(Literal(ts[0].value), ts[1..])
    else if ts[0].Name? then
      if Starts(ts[1..], '(') then
        match ParseArgs(ts[2..])
        case Stuck => Stuck
        case Read(a, rest) => Read(Call(ts[0].name, a), rest)
      else Read(Constant(ts[0].name), ts[1..])
    else if Starts(ts, '(') then
      match ParseExpr(ts[1..])
      case Stuck => Stuck
      case Read(e, rest) => if Starts(rest, ')') then Read(Group(e), rest[1..]) else Stuck
    else Stuck
  }

  function ParseArgs<N>(ts: seq<Token<N>>): (r: Parsed<Args<N>, N>)
    ensures r.Read? ==> |r.rest| < |ts|
    decreases |ts|, 5
  {
    if Starts(ts, ')') then Read(NoArgs, ts[1..])
    else
      match ParseExpr(ts)
      case Stuck => Stuck
      case Read(e, rest) =>
        match ParseMoreArgs(rest)
        case Stuck => Stuck
        case Read(more, rest') => Read(Args(e, more), rest')
  }

  function ParseMoreArgs<N>(ts: seq<Token<N>>): (r: Parsed<MoreArgs<N>, N>)
    ensures r.Read? ==> |r.rest| < |ts|
    decreases |ts|, 0
  {
    if Starts(ts, ',') then
      match ParseExpr(ts[1..])
      case Stuck => Stuck
      case Read(e, rest) =>
        match ParseMoreArgs(rest)
        case Stuck => Stuck
        case Read(more, rest') => Read(Comma(e, more), rest')
    else if Starts(ts, ')') then Read(EndArgs, ts[1..])
    else Stuck
  }

  // -------------------------------------------------------------------- soundness

  lemma Glue<N>(ts: seq<Token<N>>, a: seq<Token<N>>, b: seq<Token<N>>, rest: seq<Token<N>>)
    requires ts != [] && ts[1..] == a + (b + rest)
    ensures ts == [ts[0]] + a + b + rest
  {}

  lemma {:induction false} SoundExpr<N>(ts: seq<Token<N>>)
    requires ParseExpr(ts).Read?
    ensures ts == YieldExpr(ParseExpr(ts).tree) + ParseExpr(ts).rest
    decreases |ts|, 4
  {
    hide ParseSums, ParseTerm, ParseProducts, ParsePower, ParseUnary, ParsePrimary, ParseArgs, ParseMoreArgs,
         YieldSums, YieldTerm, YieldProducts, YieldPower, YieldUnary, YieldPrimary, YieldArgs, YieldMoreArgs,
         YieldExponent;
    SoundTerm(ts);
    SoundSums(ParseTerm(ts).rest);
  }

  lemma {:induction false} SoundSums<N>(ts: seq<Token<N>>)
    requires ParseSums(ts).Read?
    ensures ts == YieldSums(ParseSums(ts).tree) + ParseSums(ts).rest
    decreases |ts|, 0
  {
    hide ParseExpr, ParseTerm, ParseProducts, ParsePower, ParseUnary, ParsePrimary, ParseArgs, ParseMoreArgs,
         YieldExpr, YieldTerm, YieldProducts, YieldPower, YieldUnary, YieldPrimary, YieldArgs, YieldMoreArgs,
         YieldExponent;
    if Starts(ts, '+') || Starts(ts, '-') {
      var t := ParseTerm(ts[1..]);
      var s := ParseSums(t.rest);
      SoundTerm(ts[1..]);
      SoundSums(t.rest);
      Glue(ts, YieldTerm(t.tree), YieldSums(s.tree), s.rest);
    }
  }

  lemma {:induction false} SoundTerm<N>(ts: seq<Token<N>>)
    requires ParseTerm(ts).Read?
    ensures ts == YieldTerm(ParseTerm(ts).tree) + ParseTerm(ts).rest
    decreases |ts|, 3
  {
    hide ParseExpr, ParseSums, ParseProducts, ParsePower, ParseUnary, ParsePrimary, ParseArgs, ParseMoreArgs,
         YieldExpr, YieldSums, YieldProducts, YieldPower, YieldUnary, YieldPrimary, YieldArgs, YieldMoreArgs,
         YieldExponent;
    SoundPower(ts);
    SoundProducts(ParsePower(ts).rest);
  }

  lemma {:induction false} SoundProducts<N>(ts: seq<Token<N>>)
    requires ParseProducts(ts).Read?
    ensures ts == YieldProducts(ParseProducts(ts).tree) + ParseProducts(ts).rest
    decreases |ts|, 0
  {
    hide ParseExpr, ParseSums, ParseTerm, ParsePower, ParseUnary, ParsePrimary, ParseArgs, ParseMoreArgs,
         YieldExpr, YieldSums, YieldTerm, YieldPower, YieldUnary, YieldPrimary, YieldArgs, YieldMoreArgs,
         YieldExponent;
    hide MulOpOf, MulSign;
    if Starts(ts, '*') || Starts(ts, '/') || Starts(ts, '%') {
      MulSignOf(ts[0].sign);
      var p := ParsePower(ts[1..]);
      var s := ParseProducts(p.rest);
      SoundPower(ts[1..]);
      SoundProducts(p.rest);
      Glue(ts, YieldPower(p.tree), YieldProducts(s.tree), s.rest);
    }
  }

  lemma {:induction false} SoundPower<N>(ts: seq<Token<N>>)
    requires ParsePower(ts).Read?
    ensures ts == YieldPower(ParsePower(ts).tree) + ParsePower(ts).rest
    decreases |ts|, 2
  {
    hide ParseExpr, ParseSums, ParseTerm, ParseProducts, ParseUnary, ParsePrimary, ParseArgs, ParseMoreArgs,
         YieldExpr, YieldSums, YieldTerm, YieldProducts, YieldUnary, YieldPrimary, YieldArgs, YieldMoreArgs;
    SoundUnary(ts);
    var rest := ParseUnary(ts).rest;
    if Starts(rest, '^') {
      SoundPower(rest[1..]);
      assert rest == [rest[0]] + rest[1..];
    }
  }

  lemma {:induction false} SoundUnary<N>(ts: seq<Token<N>>)
    requires ParseUnary(ts).Read?
    ensures ts == YieldUnary(ParseUnary(ts).tree) + ParseUnary(ts).rest
    decreases |ts|, 1
  {
    hide ParseExpr, ParseSums, ParseTerm, ParseProducts, ParsePower, ParsePrimary, ParseArgs, ParseMoreArgs,
         YieldExpr, YieldSums, YieldTerm, YieldProducts, YieldPower, YieldPrimary, YieldArgs, YieldMoreArgs,
         YieldExponent;
    if Starts(ts, '-') || Starts(ts, '+') {
      SoundUnary(ts[1..]);
      assert ts == [ts[0]] + ts[1..];
    } else {
      SoundPrimary(ts);
    }
  }

  lemma {:induction false} SoundPrimary<N>(ts: seq<Token<N>>)
    requires ParsePrimary(ts).Read?
    ensures ts == YieldPrimary(ParsePrimary(ts).tree) + ParsePrimary(ts).rest
    decreases |ts|, 0
  {
    hide ParseExpr, ParseSums, ParseTerm, ParseProducts, ParsePower, ParseUnary, ParseArgs, ParseMoreArgs,
         YieldExpr, YieldSums, YieldTerm, YieldProducts, YieldPower, YieldUnary, YieldArgs, YieldMoreArgs,
         YieldExponent;
    assert ts == [ts[0]] + ts[1..];
    if ts[0].Name? && Starts(ts[1..], '(') {
      SoundArgs(ts[2..]);
      assert ts == [ts[0], ts[1]] + ts[2..];
    } else if Starts(ts, '(') {
      SoundExpr(ts[1..]);
      var rest := ParseExpr(ts[1..]).rest;
      assert rest == [rest[0]] + rest[1..];
    }
  }

  lemma {:induction false} SoundArgs<N>(ts: seq<Token<N>>)
    requires ParseArgs(ts).Read?
    ensures ts == YieldArgs(ParseArgs(ts).tree) + ParseArgs(ts).rest
    decreases |ts|, 5
  {
    hide ParseExpr, ParseSums, ParseTerm, ParseProducts, ParsePower, ParseUnary, ParsePrimary, ParseMoreArgs,
         YieldExpr, YieldSums, YieldTerm, YieldProducts, YieldPower, YieldUnary, YieldPrimary, YieldMoreArgs,
         YieldExponent;
    if Starts(ts, ')') {
      assert ts == [ts[0]] + ts[1..];
    } else {
      SoundExpr(ts);
      SoundMoreArgs(ParseExpr(ts).rest);
    }
  }

  lemma {:induction false} SoundMoreArgs<N>(ts: seq<Token<N>>)
    requires ParseMoreArgs(ts).Read?
    ensures ts == YieldMoreArgs(ParseMoreArgs(ts).tree) + ParseMoreArgs(ts).rest
    decreases |ts|, 0
  {
    hide ParseExpr, ParseSums, ParseTerm, ParseProducts, ParsePower, ParseUnary, ParsePrimary, ParseArgs,
         YieldExpr, YieldSums, YieldTerm, YieldProducts, YieldPower, YieldUnary, YieldPrimary, YieldArgs,
         YieldExponent;
    assert ts == [ts[0]] + ts[1..];
    if Starts(ts, ',') {
      SoundExpr(ts[1..]);
      SoundMoreArgs(ParseExpr(ts[1..]).rest);
    }
  }

  // ----------------------------------------------------------------- completeness

  /** What comes after a derivation cannot be read as more of it. */
  predicate EndsPrimary<N>(rest: seq<Token<N>>) { !Starts(rest, '(') }

  predicate EndsPower<N>(rest: seq<Token<N>>) { EndsPrimary(rest) && !Starts(rest, '^') }

  predicate EndsTerm<N>(rest: seq<Token<N>>) {
    EndsPower(rest) && !Starts(rest, '*') && !Starts(rest, '/') && !Starts(rest, '%')
  }

  predicate EndsExpr<N>(rest: seq<Token<N>>) { EndsTerm(rest) && !Starts(rest, '+') && !Starts(rest, '-') }

  lemma {:induction false} CompleteExpr<N>(e: Expr<N>, rest: seq<Token<N>>)
    requires EndsExpr(rest)
    ensures ParseExpr(YieldExpr(e) + rest) == Read(e, rest)
    decreases e
  {
    hide ParseSums, ParseTerm, ParseProducts, ParsePower, ParseUnary, ParsePrimary, ParseArgs, ParseMoreArgs,
         YieldSums, YieldTerm, YieldProducts, YieldPower, YieldUnary, YieldPrimary, YieldArgs, YieldMoreArgs,
         YieldExponent;
    var tail := YieldSums(e.more) + rest;
    assert YieldExpr(e) + rest == YieldTerm(e.first) + tail;
    SumsEndTerm(e.more, rest);
    CompleteTerm(e.first, tail);
    CompleteSums(e.more, rest);
  }

  lemma {:induction false} CompleteSums<N>(s: Sums<N>, rest: seq<Token<N>>)
    requires EndsExpr(rest)
    ensures ParseSums(YieldSums(s) + rest) == Read(s, rest)
    decreases s
  {
    hide ParseExpr, ParseTerm, ParseProducts, ParsePower, ParseUnary, ParsePrimary, ParseArgs, ParseMoreArgs,
         YieldExpr, YieldTerm, YieldProducts, YieldPower, YieldUnary, YieldPrimary, YieldArgs, YieldMoreArgs,
         YieldExponent;
    match s
    case NoSums => assert YieldSums(s) + rest == rest;
    case Sum(minus, t, more) =>
      var tail := YieldSums(more) + rest;
      var ts := YieldSums(s) + rest;
      assert ts == [Symbol(AddSign(minus))] + (YieldTerm(t) + tail);
      assert ts[1..] == YieldTerm(t) + tail;
      SumsEndTerm(more, rest);
      CompleteTerm(t, tail);
      CompleteSums(more, rest);
  }

  lemma SumsEndTerm<N>(s: Sums<N>, rest: seq<Token<N>>)
    requires EndsExpr(rest)
    ensures EndsTerm(YieldSums(s) + rest)
  {}

  lemma {:induction false} CompleteTerm<N>(t: Term<N>, rest: seq<Token<N>>)
    requires EndsTerm(rest)
    ensures ParseTerm(YieldTerm(t) + rest) == Read(t, rest)
    decreases t
  {
    hide ParseExpr, ParseSums, ParseProducts, ParsePower, ParseUnary, ParsePrimary, ParseArgs, ParseMoreArgs,
         YieldExpr, YieldSums, YieldProducts, YieldPower, YieldUnary, YieldPrimary, YieldArgs, YieldMoreArgs,
         YieldExponent;
    var tail := YieldProducts(t.more) + rest;
    assert YieldTerm(t) + rest == YieldPower(t.first) + tail;
    ProductsEndPower(t.more, rest);
    CompletePower(t.first, tail);
    CompleteProducts(t.more, rest);
  }

  lemma {:induction false} CompleteProducts<N>(s: Products<N>, rest: seq<Token<N>>)
    requires EndsTerm(rest)
    ensures ParseProducts(YieldProducts(s) + rest) == Read(s, rest)
    decreases s
  {
    hide ParseExpr, ParseSums, ParseTerm, ParsePower, ParseUnary, ParsePrimary, ParseArgs, ParseMoreArgs,
         YieldExpr, YieldSums, YieldTerm, YieldPower, YieldUnary, YieldPrimary, YieldArgs, YieldMoreArgs,
         YieldExponent;
    match s
    case NoProducts => assert YieldProducts(s) + rest == rest;
    case Product(op, p, more) =>
      var tail := YieldProducts(more) + rest;
      var ts := YieldProducts(s) + rest;
      assert ts == [Symbol(MulSign(op))] + (YieldPower(p) + tail);
      assert ts[1..] == YieldPower(p) + tail;
      ProductsEndPower(more, rest);
      CompletePower(p, tail);
      CompleteProducts(more, rest);
  }

  lemma ProductsEndPower<N>(s: Products<N>, rest: seq<Token<N>>)
    requires EndsTerm(rest)
    ensures EndsPower(YieldProducts(s) + rest)
  {}

  lemma {:induction false} CompletePower<N>(p: Power<N>, rest: seq<Token<N>>)
    requires EndsPower(rest)
    ensures ParsePower(YieldPower(p) + rest) == Read(p, rest)
    decreases p
  {
    hide ParseExpr, ParseSums, ParseTerm, ParseProducts, ParseUnary, ParsePrimary, ParseArgs, ParseMoreArgs,
         YieldExpr, YieldSums, YieldTerm, YieldProducts, YieldUnary, YieldPrimary, YieldArgs, YieldMoreArgs;
    var tail := YieldExponent(p.exponent) + rest;
    assert YieldPower(p) + rest == YieldUnary(p.base) + tail;
    match p.exponent {
      case NoExponent => assert tail == rest;
      case Raised(q) =>
        assert tail == [Symbol('^')] + (YieldPower(q) + rest);
        assert tail[1..] == YieldPower(q) + rest;
        CompletePower(q, rest);
    }
    CompleteUnary(p.base, tail);
  }

  lemma {:induction false} CompleteUnary<N>(u: Unary<N>, rest: seq<Token<N>>)
    requires EndsPrimary(rest)
    ensures ParseUnary(YieldUnary(u) + rest) == Read(u, rest)
    decreases u
  {
    hide ParseExpr, ParseSums, ParseTerm, ParseProducts, ParsePower, ParsePrimary, ParseArgs, ParseMoreArgs,
         YieldExpr, YieldSums, YieldTerm, YieldProducts, YieldPower, YieldPrimary, YieldArgs, YieldMoreArgs,
         YieldExponent;
    match u
    case Signed(minus, x) =>
      var ts := YieldUnary(u) + rest;
      assert ts == [Symbol(AddSign(minus))] + (YieldUnary(x) + rest);
      assert ts[1..] == YieldUnary(x) + rest;
      CompleteUnary(x, rest);
    case Plain(p) =>
      PrimaryStart(p, rest);
      CompletePrimary(p, rest);
  }

  lemma PrimaryStart<N>(p: Primary<N>, rest: seq<Token<N>>)
    ensures !Starts(YieldPrimary(p) + rest, '-') && !Starts(YieldPrimary(p) + rest, '+')
    ensures !Starts(YieldPrimary(p) + rest, ')')
  {}

  lemma {:induction false} CompletePrimary<N>(p: Primary<N>, rest: seq<Token<N>>)
    requires EndsPrimary(rest)
    ensures ParsePrimary(YieldPrimary(p) + rest) == Read(p, rest)
    decreases p
  {
    hide ParseExpr, ParseSums, ParseTerm, ParseProducts, ParsePower, ParseUnary, ParseArgs, ParseMoreArgs,
         YieldExpr, YieldSums, YieldTerm, YieldProducts, YieldPower, YieldUnary, YieldArgs, YieldMoreArgs,
         YieldExponent;
    var ts := YieldPrimary(p) + rest;
    assert ts == [ts[0]] + ts[1..];
    match p
    case Literal(v) => assert ts[1..] == rest;
    case Constant(n) => assert ts[1..] == rest;
    case Call(n, args) =>
      assert ts == [Name(n), Symbol('(')] + (YieldArgs(args) + rest);
      assert ts[2..] == YieldArgs(args) + rest;
      CompleteArgs(args, rest);
    case Group(e) =>
      var tail := [Symbol(')')] + rest;
      assert ts == [Symbol('(')] + (YieldExpr(e) + tail);
      assert ts[1..] == YieldExpr(e) + tail;
      assert tail[1..] == rest;
      CompleteExpr(e, tail);
  }

  lemma {:induction false} CompleteArgs<N>(a: Args<N>, rest: seq<Token<N>>)
    ensures ParseArgs(YieldArgs(a) + rest) == Read(a, rest)
    decreases a
  {
    hide ParseExpr, ParseSums, ParseTerm, ParseProducts, ParsePower, ParseUnary, ParsePrimary, ParseMoreArgs,
         YieldExpr, YieldSums, YieldTerm, YieldProducts, YieldPower, YieldUnary, YieldPrimary, YieldMoreArgs,
         YieldExponent;
    var ts := YieldArgs(a) + rest;
    match a
    case NoArgs => assert ts == [Symbol(')')] + rest && ts[1..] == rest;
    case Args(e, more) =>
      var tail := YieldMoreArgs(more) + rest;
      assert ts == YieldExpr(e) + tail;
      MoreArgsEndExpr(more, rest);
      CompleteExpr(e, tail);
      CompleteMoreArgs(more, rest);
      ExprStart(e, tail);
  }

  lemma {:induction false} CompleteMoreArgs<N>(a: MoreArgs<N>, rest: seq<Token<N>>)
    ensures ParseMoreArgs(YieldMoreArgs(a) + rest) == Read(a, rest)
    decreases a
  {
    hide ParseExpr, ParseSums, ParseTerm, ParseProducts, ParsePower, ParseUnary, ParsePrimary, ParseArgs,
         YieldExpr, YieldSums, YieldTerm, YieldProducts, YieldPower, YieldUnary, YieldPrimary, YieldArgs,
         YieldExponent;
    var ts := YieldMoreArgs(a) + rest;
    match a
    case EndArgs => assert ts == [Symbol(')')] + rest && ts[1..] == rest;
    case Comma(e, more) =>
      var tail := YieldMoreArgs(more) + rest;
      assert ts == [Symbol(',')] + (YieldExpr(e) + tail);
      assert ts[1..] == YieldExpr(e) + tail;
      MoreArgsEndExpr(more, rest);
      CompleteExpr(e, tail);
      CompleteMoreArgs(more, rest);
  }

  lemma MoreArgsEndExpr<N>(a: MoreArgs<N>, rest: seq<Token<N>>)
    ensures EndsExpr(YieldMoreArgs(a) + rest)
  {}

  /** No expression begins with a closing parenthesis. */
  lemma ExprStart<N>(e: Expr<N>, rest: seq<Token<N>>)
    ensures !Starts(YieldExpr(e) + rest, ')')
  {
    hide YieldSums, YieldTerm, YieldProducts, YieldPower, YieldUnary, YieldPrimary, YieldArgs, YieldMoreArgs,
         YieldExponent;
    TermStart(e.first);
  }

  lemma TermStart<N>(t: Term<N>)
    ensures YieldTerm(t) != [] && !Starts(YieldTerm(t), ')')
  {
    hide YieldExpr, YieldSums, YieldProducts, YieldPower, YieldUnary, YieldPrimary, YieldArgs, YieldMoreArgs,
         YieldExponent;
    PowerStart(t.first);
  }

  lemma PowerStart<N>(p: Power<N>)
    ensures YieldPower(p) != [] && !Starts(YieldPower(p), ')')
  {
    hide YieldExpr, YieldSums, YieldTerm, YieldProducts, YieldUnary, YieldPrimary, YieldArgs, YieldMoreArgs,
         YieldExponent;
    UnaryStart(p.base);
  }

  lemma UnaryStart<N>(u: Unary<N>)
    ensures YieldUnary(u) != [] && !Starts(YieldUnary(u), ')')
  {}

  // ------------------------------------------------------------------- consequences

  /** The whole token list is an expression. */
  function ParseAll<N>(ts: seq<Token<N>>): Parsed<Expr<N>, N> {
    var r := ParseExpr(ts);
    if r.Read? && r.rest != [] then Stuck else r
  }

  /** The descent finds a derivation of the whole list exactly when the grammar has it. */
  lemma ParseAllIsGrammar<N>(ts: seq<Token<N>>, e: Expr<N>)
    ensures ParseAll(ts) == Read(e, []) <==> YieldExpr(e) == ts
  {
    hide ParseExpr, YieldExpr;
    if YieldExpr(e) == ts {
      assert ts + [] == ts;
      CompleteExpr(e, []);
    }
    if ParseAll(ts) == Read(e, []) { SoundExpr(ts); }
  }

  /** No token list has two derivations. */
  lemma Unambiguous<N>(e: Expr<N>, e': Expr<N>)
    requires YieldExpr(e) == YieldExpr(e')
    ensures e == e'
  {
    hide YieldExpr, ParseAll;
    ParseAllIsGrammar(YieldExpr(e), e);
    ParseAllIsGrammar(YieldExpr(e), e');
  }
}
