/**
 The calculator's parser, which evaluates while it parses, agrees with the two-phase calculator that
 first finds the derivation and then evaluates it.
 */
module Calc {
  import opened CalcGrammar
  import opened CalcParse

  // -------------------------------------------------------- faults without a derivation

  /** Which fault comes first, in reading order, where there is no derivation: that of the first complete
      piece whose evaluation has one, else that of the place where the descent is stuck. */
  function ExprFault<N>(A: Arithmetic<N>, ts: seq<Token<N>>): Fault
    requires ParseExpr(ts).Stuck?
    decreases |ts|, 4
  {
    match ParseTerm(ts)
    case Stuck => TermFault(A, ts)
    case Read(t, rest) =>
      match TermValue(A, t)
      case Err(f) => f
      case Ok(v) => SumsFault(A, v, rest)
  }

  function SumsFault<N>(A: Arithmetic<N>, left: N, ts: seq<Token<N>>): Fault
    requires ParseSums(ts).Stuck?
    decreases |ts|, 0
  {
    match ParseTerm(ts[1..])
    case Stuck => TermFault(A, ts[1..])
    case Read(t, rest) =>
      match TermValue(A, t)
      case Err(f) => f
      case Ok(v) => SumsFault(A, Add(A, ts[0].sign == '-', left, v), rest)
  }

  function TermFault<N>(A: Arithmetic<N>, ts: seq<Token<N>>): Fault
    requires ParseTerm(ts).Stuck?
    decreases |ts|, 3
  {
    match ParsePower(ts)
    case Stuck => PowerFault(A, ts)
    case Read(p, rest) =>
      match PowerValue(A, p)
      case Err(f) => f
      case Ok(v) => ProductsFault(A, v, rest)
  }

  function ProductsFault<N>(A: Arithmetic<N>, left: N, ts: seq<Token<N>>): Fault
    requires ParseProducts(ts).Stuck?
    decreases |ts|, 0
  {
    match ParsePower(ts[1..])
    case Stuck => PowerFault(A, ts[1..])
    case Read(p, rest) =>
      match PowerValue(A, p)
      case Err(f) => f
      case Ok(v) =>
        match Multiply(A, MulOpOf(ts[0].sign), left, v)
        case Err(f) => f
        case Ok(w) => ProductsFault(A, w, rest)
  }

  function PowerFault<N>(A: Arithmetic<N>, ts: seq<Token<N>>): Fault
    requires ParsePower(ts).Stuck?
    decreases |ts|, 2
  {
    match ParseUnary(ts)
    case Stuck => UnaryFault(A, ts)
    case Read(u, rest) =>
      match UnaryValue(A, u)
      case Err(f) => f
      case Ok(_) => PowerFault(A, rest[1..])
  }

  function UnaryFault<N>(A: Arithmetic<N>, ts: seq<Token<N>>): Fault
    requires ParseUnary(ts).Stuck?
    decreases |ts|, 1
  {
    if Starts(ts, '-') || Starts(ts, '+') then UnaryFault(A, ts[1..]) else PrimaryFault(A, ts)
  }

  function PrimaryFault<N>(A: Arithmetic<N>, ts: seq<Token<N>>): Fault
    requires ParsePrimary(ts).Stuck?
    decreases |ts|, 0
  {
    if ts == [] then SyntaxError
    else if ts[0].Name? then if IsCallable(ts[0].name) then ArgsFault(A, ts[2..]) else NameError
    else if Starts(ts, '(') then
      match ParseExpr(ts[1..])
      case Stuck => ExprFault(A, ts[1..])
      case Read(e, rest) =>
        match ExprValue(A, e)
        case Err(f) => f
        case Ok(_) => SyntaxError
    else SyntaxError
  }

  function ArgsFault<N>(A: Arithmetic<N>, ts: seq<Token<N>>): Fault
    requires ParseArgs(ts).Stuck?
    decreases |ts|, 5
  {
    match ParseExpr(ts)
    case Stuck => ExprFault(A, ts)
    case Read(e, rest) =>
      match ExprValue(A, e)
      case Err(f) => f
      case Ok(_) => MoreArgsFault(A, rest)
  }

  function MoreArgsFault<N>(A: Arithmetic<N>, ts: seq<Token<N>>): Fault
    requires ParseMoreArgs(ts).Stuck?
    decreases |ts|, 0
  {
    if !Starts(ts, ',') then SyntaxError
    else
      match ParseExpr(ts[1..])
      case Stuck => ExprFault(A, ts[1..])
      case Read(e, rest) =>
        match ExprValue(A, e)
        case Err(f) => f
        case Ok(_) => MoreArgsFault(A, rest)
  }

  // ------------------------------------------------------- the two-phase calculator

  /** Phase one then phase two on the front of a token list. */
  datatype Outcome<T, N> = Underivable(fault: Fault) | Evaluated(value: Result<T>, rest: seq<Token<N>>)

  function ExprOutcome<N>(A: Arithmetic<N>, ts: seq<Token<N>>): Outcome<N, N> {
    match ParseExpr(ts)
    case Stuck => Underivable(ExprFault(A, ts))
    case Read(e, rest) => Evaluated(ExprValue(A, e), rest)
  }

  function SumsOutcome<N>(A: Arithmetic<N>, left: N, ts: seq<Token<N>>): Outcome<N, N> {
    match ParseSums(ts)
    case Stuck => Underivable(SumsFault(A, left, ts))
    case Read(s, rest) => Evaluated(SumsValue(A, left, s), rest)
  }

  function TermOutcome<N>(A: Arithmetic<N>, ts: seq<Token<N>>): Outcome<N, N> {
    match ParseTerm(ts)
    case Stuck => Underivable(TermFault(A, ts))
    case Read(t, rest) => Evaluated(TermValue(A, t), rest)
  }

  function ProductsOutcome<N>(A: Arithmetic<N>, left: N, ts: seq<Token<N>>): Outcome<N, N> {
    match ParseProducts(ts)
    case Stuck => Underivable(ProductsFault(A, left, ts))
    case Read(s, rest) => Evaluated(ProductsValue(A, left, s), rest)
  }

  function PowerOutcome<N>(A: Arithmetic<N>, ts: seq<Token<N>>): Outcome<N, N> {
    match ParsePower(ts)
    case Stuck => Underivable(PowerFault(A, ts))
    case Read(p, rest) => Evaluated(PowerValue(A, p), rest)
  }

  function UnaryOutcome<N>(A: Arithmetic<N>, ts: seq<Token<N>>): Outcome<N, N> {
    match ParseUnary(ts)
    case Stuck => Underivable(UnaryFault(A, ts))
    case Read(u, rest) => Evaluated(UnaryValue(A, u), rest)
  }

  function PrimaryOutcome<N>(A: Arithmetic<N>, ts: seq<Token<N>>): Outcome<N, N> {
    match ParsePrimary(ts)
    case Stuck => Underivable(PrimaryFault(A, ts))
    case Read(p, rest) => Evaluated(PrimaryValue(A, p), rest)
  }

  function ArgsOutcome<N>(A: Arithmetic<N>, ts: seq<Token<N>>): Outcome<seq<N>, N> {
    match ParseArgs(ts)
    case Stuck => Underivable(ArgsFault(A, ts))
    case Read(a, rest) => Evaluated(ArgsValue(A, a), rest)
  }

  function MoreArgsOutcome<N>(A: Arithmetic<N>, vs: seq<N>, ts: seq<Token<N>>): Outcome<seq<N>, N> {
    match ParseMoreArgs(ts)
    case Stuck => Underivable(MoreArgsFault(A, ts))
    case Read(a, rest) => Evaluated(MoreArgsValue(A, vs, a), rest)
  }

  /** A result of the one-phase parser, and the tokens it leaves, agree with the two phases: with no
      derivation it fails with the first fault, with one it returns the derivation's value or fault. */
  ghost predicate Agrees<T, N>(o: Outcome<T, N>, r: Result<T>, rest: seq<Token<N>>) {
    match o
    case Underivable(f) => r == Err(f)
    case Evaluated(v, rest0) => r == v && (v.Ok? ==> rest == rest0)
  }

  predicate FailsWith<T, N>(o: Outcome<T, N>, f: Fault) { o == Underivable(f) || (o.Evaluated? && o.value == Err(f)) }

  /** The whole fails as its part does. */
  ghost predicate FailsAlike<S, T, N>(part: Outcome<S, N>, whole: Outcome<T, N>) {
    && (part.Underivable? ==> whole == Underivable(part.fault))
    && (part.Evaluated? && part.value.Err? ==> FailsWith(whole, part.value.fault))
  }

  lemma ExprSteps<N>(A: Arithmetic<N>, ts: seq<Token<N>>)
    ensures var part, whole := TermOutcome(A, ts), ExprOutcome(A, ts);
      && FailsAlike(part, whole)
      && (part.Evaluated? && part.value.Ok? ==> whole == SumsOutcome(A, part.value.value, part.rest))
  {
  }

  lemma SumsSteps<N>(A: Arithmetic<N>, left: N, ts: seq<Token<N>>)
    ensures var whole := SumsOutcome(A, left, ts);
      if Starts(ts, '+') || Starts(ts, '-') then
        var part := TermOutcome(A, ts[1..]);
        && FailsAlike(part, whole)
        && (part.Evaluated? && part.value.Ok? ==>
            whole == SumsOutcome(A, Add(A, ts[0].sign == '-', left, part.value.value), part.rest))
      else whole == Evaluated(Ok(left), ts)
  {
  }

  lemma TermSteps<N>(A: Arithmetic<N>, ts: seq<Token<N>>)
    ensures var part, whole := PowerOutcome(A, ts), TermOutcome(A, ts);
      && FailsAlike(part, whole)
      && (part.Evaluated? && part.value.Ok? ==> whole == ProductsOutcome(A, part.value.value, part.rest))
  {
  }

  lemma ProductsSteps<N>(A: Arithmetic<N>, left: N, ts: seq<Token<N>>)
    ensures var whole := ProductsOutcome(A, left, ts);
      if Starts(ts, '*') || Starts(ts, '/') || Starts(ts, '%') then
        var part := PowerOutcome(A, ts[1..]);
        && FailsAlike(part, whole)
        && (part.Evaluated? && part.value.Ok? ==>
            match Multiply(A, MulOpOf(ts[0].sign), left, part.value.value)
            case Ok(v) => whole == ProductsOutcome(A, v, part.rest)
            case Err(f) => FailsWith(whole, f))
      else whole == Evaluated(Ok(left), ts)
  {}

  lemma BarePower<N>(A: Arithmetic<N>, u: Unary<N>)
    ensures PowerValue(A, Power(u, NoExponent)) == UnaryValue(A, u)
  {}

  lemma RaisedPower<N>(A: Arithmetic<N>, u: Unary<N>, p: Power<N>)
    ensures var base, exponent, whole := UnaryValue(A, u), PowerValue(A, p), PowerValue(A, Power(u, Raised(p)));
      && (base.Err? ==> whole == base)
      && (base.Ok? && exponent.Err? ==> whole == exponent)
      && (base.Ok? && exponent.Ok? ==> whole == Ok(A.pow(base.value, exponent.value)))
  {}

  lemma PowerSteps<N>(A: Arithmetic<N>, ts: seq<Token<N>>)
    ensures var part, whole := UnaryOutcome(A, ts), PowerOutcome(A, ts);
      && FailsAlike(part, whole)
      && (part.Evaluated? && part.value.Ok? ==>
          if Starts(part.rest, '^') then
            var exponent := PowerOutcome(A, part.rest[1..]);
            && FailsAlike(exponent, whole)
            && (exponent.Evaluated? && exponent.value.Ok? ==>
                whole == Evaluated(Ok(A.pow(part.value.value, exponent.value.value)), exponent.rest))
          else whole == part)
  {
    var u := ParseUnary(ts);
    if u.Read? {
      BarePower(A, u.tree);
      if Starts(u.rest, '^') {
        var p := ParsePower(u.rest[1..]);
        if p.Read? { RaisedPower(A, u.tree, p.tree); }
      }
    }
    hide ParseUnary, UnaryValue, PowerValue;
  }

  lemma UnarySteps<N>(A: Arithmetic<N>, ts: seq<Token<N>>)
    ensures var whole := UnaryOutcome(A, ts);
      if Starts(ts, '-') || Starts(ts, '+') then
        var part := UnaryOutcome(A, ts[1..]);
        && FailsAlike(part, whole)
        && (part.Evaluated? && part.value.Ok? ==>
            whole == Evaluated(Ok(if ts[0].sign == '-' then A.neg(part.value.value) else part.value.value), part.rest))
      else whole == PrimaryOutcome(A, ts)
  {
  }

  lemma CallSteps<N>(A: Arithmetic<N>, ts: seq<Token<N>>)
    requires ts != [] && ts[0].Name? && Starts(ts[1..], '(')
    ensures var part, whole := ArgsOutcome(A, ts[2..]), PrimaryOutcome(A, ts);
      && (!IsCallable(ts[0].name) ==> FailsWith(whole, NameError))
      && (IsCallable(ts[0].name) ==>
          && FailsAlike(part, whole)
          && (part.Evaluated? && part.value.Ok? ==>
              whole == Evaluated(CallValue(A, ts[0].name, part.value.value), part.rest)))
  {}

  lemma GroupSteps<N>(A: Arithmetic<N>, ts: seq<Token<N>>)
    requires Starts(ts, '(')
    ensures var part, whole := ExprOutcome(A, ts[1..]), PrimaryOutcome(A, ts);
      && FailsAlike(part, whole)
      && (part.Evaluated? && part.value.Ok? ==>
          whole == if Starts(part.rest, ')') then Evaluated(part.value, part.rest[1..]) else Underivable(SyntaxError))
  {
  }

  lemma OtherPrimaries<N>(A: Arithmetic<N>, ts: seq<Token<N>>)
    ensures var whole := PrimaryOutcome(A, ts);
      && (ts == [] ==> whole == Underivable(SyntaxError))
      && (ts != [] && ts[0].Number? ==> whole == Evaluated(Ok(ts[0].value), ts[1..]))
      && (ts != [] && ts[0].Name? && !Starts(ts[1..], '(') ==>
          whole == Evaluated(ConstantValue(A, ts[0].name), ts[1..]))
      && (ts != [] && ts[0].Symbol? && !Starts(ts, '(') ==> whole == Underivable(SyntaxError))
  {}

  lemma ArgsSteps<N>(A: Arithmetic<N>, ts: seq<Token<N>>)
    ensures var whole := ArgsOutcome(A, ts);
      if Starts(ts, ')') then whole == Evaluated(Ok([]), ts[1..])
      else
        var part := ExprOutcome(A, ts);
        && FailsAlike(part, whole)
        && (part.Evaluated? && part.value.Ok? ==> whole == MoreArgsOutcome(A, [part.value.value], part.rest))
  {
  }

  lemma MoreArgsSteps<N>(A: Arithmetic<N>, vs: seq<N>, ts: seq<Token<N>>)
    ensures var whole := MoreArgsOutcome(A, vs, ts);
      if Starts(ts, ',') then
        var part := ExprOutcome(A, ts[1..]);
        && FailsAlike(part, whole)
        && (part.Evaluated? && part.value.Ok? ==> whole == MoreArgsOutcome(A, vs + [part.value.value], part.rest))
      else whole == if Starts(ts, ')') then Evaluated(Ok(vs), ts[1..]) else Underivable(SyntaxError)
  {
  }

  // ------------------------------------------------------------- the one-phase parser

  class Parser<N> {
    const A: Arithmetic<N>
    const tokens: seq<Token<N>>
    var pos: nat

    constructor (A: Arithmetic<N>, tokens: seq<Token<N>>)
      ensures this.A == A && this.tokens == tokens && pos == 0
    {
      this.A, this.tokens, pos := A, tokens, 0;
    }

    ghost function Rest(): seq<Token<N>>
      requires pos <= |tokens|
      reads this
    {
      tokens[pos..]
    }

    method Accept(c: char) returns (found: bool)
      requires pos <= |tokens|
      modifies `pos
      ensures found <==> old(Starts(Rest(), c))
      ensures pos == old(pos) + (if found then 1 else 0) && pos <= |tokens|
      ensures found ==> Rest() == old(Rest())[1..]
    {
      found := false;
      if pos < |tokens| && tokens[pos].Symbol? && tokens[pos].sign == c {
        pos := pos + 1;
        found := true;
      }
    }

    method ParseExpr() returns (r: Result<N>)
      requires pos <= |tokens|
      modifies `pos
      ensures pos <= |tokens| && (r.Ok? ==> pos > old(pos))
      ensures Agrees(ExprOutcome(A, old(Rest())), r, Rest())
      decreases |tokens| - pos, 4
    {
      hide ExprOutcome, SumsOutcome, TermOutcome;
      ExprSteps(A, Rest());
      r := ParseTerm();
      if r.Err? { return; }
      var left := r.value;
      while true
        invariant old(pos) < pos <= |tokens|
        invariant SumsOutcome(A, left, Rest()) == ExprOutcome(A, old(Rest()))
        decreases |tokens| - pos
      {
        SumsSteps(A, left, Rest());
        var plus := Accept('+');
        if plus {
          r := ParseTerm();
          if r.Err? { return; }
          left := A.add(left, r.value);
        } else {
          var minus := Accept('-');
          if !minus { return Ok(left); }
          r := ParseTerm();
          if r.Err? { return; }
          left := A.sub(left, r.value);
        }
      }
    }

    method ParseTerm() returns (r: Result<N>)
      requires pos <= |tokens|
      modifies `pos
      ensures pos <= |tokens| && (r.Ok? ==> pos > old(pos))
      ensures Agrees(TermOutcome(A, old(Rest())), r, Rest())
      decreases |tokens| - pos, 3
    {
      hide TermOutcome, ProductsOutcome, PowerOutcome;
      TermSteps(A, Rest());
      r := ParsePower();
      if r.Err? { return; }
      var left := r.value;
      while true
        invariant old(pos) < pos <= |tokens|
        invariant ProductsOutcome(A, left, Rest()) == TermOutcome(A, old(Rest()))
        decreases |tokens| - pos
      {
        ProductsSteps(A, left, Rest());
        var times := Accept('*');
        if times {
          r := ParsePower();
          if r.Err? { return; }
          left := A.mul(left, r.value);
        } else {
          var over := Accept('/');
          if over {
            r := ParsePower();
            if r.Err? { return; }
            if A.isZero(r.value) { return Err(ZeroDivisionError); }
            left := A.div(left, r.value);
          } else {
            var modulo := Accept('%');
            if !modulo { return Ok(left); }
            r := ParsePower();
            if r.Err? { return; }
            if A.isZero(r.value) { return Err(ZeroDivisionError); }
            left := A.mod(left, r.value);
          }
        }
      }
    }

    method ParsePower() returns (r: Result<N>)
      requires pos <= |tokens|
      modifies `pos
      ensures pos <= |tokens| && (r.Ok? ==> pos > old(pos))
      ensures Agrees(PowerOutcome(A, old(Rest())), r, Rest())
      decreases |tokens| - pos, 2
    {
      hide PowerOutcome, UnaryOutcome;
      PowerSteps(A, Rest());
      r := ParseUnary();
      if r.Ok? {
        var found := Accept('^');
        if found {
          var exponent := ParsePower();
          r := if exponent.Ok? then Ok(A.pow(r.value, exponent.value)) else exponent;
        }
      }
    }

    method ParseUnary() returns (r: Result<N>)
      requires pos <= |tokens|
      modifies `pos
      ensures pos <= |tokens| && (r.Ok? ==> pos > old(pos))
      ensures Agrees(UnaryOutcome(A, old(Rest())), r, Rest())
      decreases |tokens| - pos, 1
    {
      hide UnaryOutcome, PrimaryOutcome;
      UnarySteps(A, Rest());
      var minus := Accept('-');
      if minus {
        r := ParseUnary();
        if r.Ok? { r := Ok(A.neg(r.value)); }
        return;
      }
      var plus := Accept('+');
      if plus {
        r := ParseUnary();
        return;
      }
      r := ParsePrimary();
    }

    method ParsePrimary() returns (r: Result<N>)
      requires pos <= |tokens|
      modifies `pos
      ensures pos <= |tokens| && (r.Ok? ==> pos > old(pos))
      ensures Agrees(PrimaryOutcome(A, old(Rest())), r, Rest())
      decreases |tokens| - pos, 0
    {
      hide PrimaryOutcome, ExprOutcome, ArgsOutcome, IsCallable, CallValue, ConstantValue;
      OtherPrimaries(A, Rest());
      if pos == |tokens| {
        return Err(SyntaxError);
      }
      var t := tokens[pos];
      assert Rest()[0] == t && Rest()[1..] == tokens[pos + 1..];
      if t.Name? && Starts(Rest()[1..], '(') { CallSteps(A, Rest()); }
      if Starts(Rest(), '(') { GroupSteps(A, Rest()); }
      if t.Number? {
        pos := pos + 1;
        return Ok(t.value);
      }
      if t.Name? {
        pos := pos + 1;
        var call := Accept('(');
        if call {
          if !IsCallable(t.name) {
            return Err(NameError);
          }
          var args := ParseArgs();
          if args.Err? {
            return Err(args.fault);
          }
          return CallValue(A, t.name, args.value);
        }
        return ConstantValue(A, t.name);
      }
      var group := Accept('(');
      if !group {
        return Err(SyntaxError);
      }
      r := ParseExpr();
      if r.Ok? {
        var closed := Accept(')');
        if !closed { r := Err(SyntaxError); }
      }
    }

    /** The arguments of a call, after its opening parenthesis. */
    method ParseArgs() returns (r: Result<seq<N>>)
      requires pos <= |tokens|
      modifies `pos
      ensures pos <= |tokens| && (r.Ok? ==> pos > old(pos))
      ensures Agrees(ArgsOutcome(A, old(Rest())), r, Rest())
      decreases |tokens| - pos, 5
    {
      hide ArgsOutcome, MoreArgsOutcome, ExprOutcome;
      ArgsSteps(A, Rest());
      var none := Accept(')');
      if none {
        return Ok([]);
      }
      var arg := ParseExpr();
      if arg.Err? {
        return Err(arg.fault);
      }
      var args := [arg.value];
      var comma := Accept(',');
      while comma
        invariant 0 < pos <= |tokens| && pos > old(pos)
        invariant !comma ==> MoreArgsOutcome(A, args, Rest()) == ArgsOutcome(A, old(Rest())) && !Starts(Rest(), ',')
        invariant comma ==> Starts(tokens[pos - 1..], ',')
        invariant comma ==> MoreArgsOutcome(A, args, tokens[pos - 1..]) == ArgsOutcome(A, old(Rest()))
        decreases |tokens| - pos, comma
      {
        MoreArgsSteps(A, args, tokens[pos - 1..]);
        assert tokens[pos - 1..][1..] == Rest();
        arg := ParseExpr();
        if arg.Err? {
          return Err(arg.fault);
        }
        args := args + [arg.value];
        comma := Accept(',');
      }
      MoreArgsSteps(A, args, Rest());
      var closed := Accept(')');
      return if closed then Ok(args) else Err(SyntaxError);
    }
  }
}
