/**
 What the calculator answers to texts that are no expression.
 */
module CalcFaults {
  import opened Decimals
  import opened CalcGrammar
  import opened CalcParse
  import opened Calc
  import opened CalcText
  import opened CalcPrint
  import opened CalcRoundTrip

  /** Tokens that begin with something no expression begins with, or not at all. */
  predicate StartsNothing<N>(ts: seq<Token<N>>) {
    ts == [] || (ts[0].Symbol? && ts[0].sign != '+' && ts[0].sign != '-' && ts[0].sign != '(')
  }

  lemma NothingThere<N>(A: Arithmetic<N>, ts: seq<Token<N>>)
    requires StartsNothing(ts)
    ensures ParsePower(ts).Stuck? && PowerFault(A, ts) == SyntaxError
    ensures ParseTerm(ts).Stuck? && TermFault(A, ts) == SyntaxError
    ensures ParseExpr(ts).Stuck? && ExprFault(A, ts) == SyntaxError
  {
    assert ParsePrimary(ts).Stuck? && PrimaryFault(A, ts) == SyntaxError;
    assert ParseUnary(ts).Stuck? && UnaryFault(A, ts) == SyntaxError;
    assert ParsePower(ts).Stuck? && PowerFault(A, ts) == SyntaxError;
    assert ParseTerm(ts).Stuck? && TermFault(A, ts) == SyntaxError;
  }

  predicate Continues<N>(ts: seq<Token<N>>, signs: string) { ts != [] && ts[0].Symbol? && ts[0].sign in signs }

  /** A number reads as itself, up to what continues a power, a term or an expression. */
  lemma NumberReads<N>(A: Arithmetic<N>, v: N, rest: seq<Token<N>>)
    ensures var ts := [Number(v)] + rest;
      && (ParseUnary(ts).Read? && ParseUnary(ts).rest == rest && UnaryValue(A, ParseUnary(ts).tree) == Ok(v))
      && (!Continues(rest, "^") ==>
            ParsePower(ts).Read? && ParsePower(ts).rest == rest && PowerValue(A, ParsePower(ts).tree) == Ok(v))
      && (!Continues(rest, "^*/%") ==>
            ParseTerm(ts).Read? && ParseTerm(ts).rest == rest && TermValue(A, ParseTerm(ts).tree) == Ok(v))
      && (!Continues(rest, "^*/%+-") ==>
            ParseExpr(ts).Read? && ParseExpr(ts).rest == rest && ExprValue(A, ParseExpr(ts).tree) == Ok(v))
  {
    var ts := [Number(v)] + rest;
    assert ts[1..] == rest;
    assert ParsePrimary(ts) == Read(Literal(v), rest);
    assert ParseUnary(ts) == Read(Plain(Literal(v)), rest);
    var u: Unary<N> := Plain(Literal(v));
    assert UnaryValue(A, u) == Ok(v);
    assert PowerValue(A, Power(u, NoExponent)) == Ok(v);
    assert TermValue(A, Term(Power(u, NoExponent), NoProducts)) == Ok(v);
    if !Continues(rest, "^") {
      assert ParsePower(ts) == Read(Power(Plain(Literal(v)), NoExponent), rest);
      if !Continues(rest, "^*/%") {
        assert ParseProducts(rest) == Read(NoProducts, rest);
        assert ParseTerm(ts) == Read(Term(Power(Plain(Literal(v)), NoExponent), NoProducts), rest);
        if !Continues(rest, "^*/%+-") {
          assert ParseSums(rest) == Read(NoSums, rest);
        }
      }
    }
  }

  /** Where the tokens are no expression, the answer is who is to blame. */
  lemma Blamed<N(!new)>(A: Arithmetic<N>, text: string, ts: seq<Token<N>>, r: Result<N>)
    requires Answers(A, text, r) && Lex(A, text) == Ok(ts)
    requires ParseExpr(ts).Stuck? || ParseExpr(ts).rest != []
    ensures r == Err(Blame(A, ts))
  {
    hide ParseExpr, YieldExpr, Blame, ExprValue, Lex;
    if Derivable(ts) {
      var e :| YieldExpr(e) == ts;
      ParseAllIsGrammar(ts, e);
      assert false;
    }
  }

  /** A text that does not begin like an expression is a SyntaxError, as is one without anything. */
  lemma BadStart<N(!new)>(A: Arithmetic<N>, c: char, s: string, r: Result<N>)
    ensures Answers(A, "", r) ==> r == Err(SyntaxError)
    ensures c in ")*/%^," && Answers(A, [c] + s, r) ==> r == Err(SyntaxError)
  {
    LexEnd(A, "");
    NothingThere(A, []);
    if Answers(A, "", r) { Blamed(A, "", [], r); }
    if c in ")*/%^," && Answers(A, [c] + s, r) && Lex(A, [c] + s).Ok? {
      SymbolFirst(A, c, s);
      var ts := Lex(A, [c] + s).value;
      NothingThere(A, ts);
      hide Lex, Answers, ParseExpr;
      Blamed(A, [c] + s, ts, r);
    }
  }

  lemma SymbolFirst<N>(A: Arithmetic<N>, c: char, s: string)
    requires c in ")*/%^,"
    ensures Lex(A, [c] + s).Ok? ==> Lex(A, [c] + s).value != [] && Lex(A, [c] + s).value[0] == Symbol(c)
  {
    var t := [c] + s;
    assert t[0..] == t && t[1..] == s;
    LexStep(A, t, 0);
    hide NumberLength, NameLength;
  }

  // the tokens of short texts

  lemma NumberThenSymbol<N>(A: Arithmetic<N>, m: nat, c: char)
    requires ReadsDigits(A) && c in "+-*/%^()"
    ensures Lex(A, Digits(m) + [c]) == Ok([Number(A.literal(Digits(m))), Symbol(c)])
  {
    var ps := [Piece(Number(A.literal(Digits(m))), Digits(m)), Piece(Symbol(c), [c])];
    NumeralIsApart(A, m);
    ProperAndApart(A, [ps[0]], ps[1]);
    assert [ps[0]] + [ps[1]] == ps;
    PiecesRead(A, ps);
    TextOfTwo(ps[0], ps[1]);
  }

  lemma ProperAndApart<N>(A: Arithmetic<N>, ps: seq<Piece<N>>, p: Piece<N>)
    requires AllProper(A, ps) && Apart(ps) && Proper(A, p) && p.token.Symbol?
    ensures AllProper(A, ps + [p]) && Apart(ps + [p])
  {
    hide Proper;
  }

  lemma TextOfTwo<N>(p: Piece<N>, q: Piece<N>)
    ensures TextOf([p, q]) == p.text + q.text && TokensOf([p, q]) == [p.token, q.token]
  {
    assert [p, q][1..] == [q] && [q][1..] == [];
    assert TextOf([q]) == q.text + TextOf<N>([]);
    assert TextOf<N>([]) == "";
    assert TextOf([p, q]) == p.text + TextOf([q]);
  }

  /** A number and an operator with nothing after it. */
  lemma MissingOperand<N(!new)>(A: Arithmetic<N>, m: nat, c: char, r: Result<N>)
    requires ReadsDigits(A) && c in "+-*/%^" && Answers(A, Digits(m) + [c], r)
    ensures r == Err(SyntaxError)
  {
    var v := A.literal(Digits(m));
    var ts, rest := [Number(v), Symbol(c)], [Symbol(c)];
    NumberThenSymbol(A, m, c);
    assert ts == [Number(v)] + rest && rest[1..] == [];
    hide Lex, Digits, ReadsDigits, Answers;
    OperandMissing(A, v, c);
    Blamed(A, Digits(m) + [c], ts, r);
  }

  lemma OperandMissing<N>(A: Arithmetic<N>, v: N, c: char)
    requires c in "+-*/%^"
    ensures ParseExpr([Number(v), Symbol(c)]).Stuck? && ExprFault(A, [Number(v), Symbol(c)]) == SyntaxError
  {
    var ts, rest: seq<Token<N>> := [Number(v), Symbol(c)], [Symbol(c)];
    assert ts == [Number(v)] + rest && rest[1..] == [];
    NumberReads(A, v, rest);
    NothingThere(A, rest[1..]);
    if c == '^' {
      assert ParsePower(ts).Stuck? && PowerFault(A, ts) == SyntaxError;
      assert ParseTerm(ts).Stuck? && TermFault(A, ts) == SyntaxError;
    } else if c == '+' || c == '-' {
      assert ParseSums(rest).Stuck? && SumsFault(A, v, rest) == SyntaxError;
    } else {
      assert ParseProducts(rest).Stuck? && ProductsFault(A, v, rest) == SyntaxError;
      assert ParseTerm(ts).Stuck? && TermFault(A, ts) == SyntaxError;
    }
  }

  /** A number and a parenthesis that was never opened. */
  lemma Trailing<N(!new)>(A: Arithmetic<N>, m: nat, r: Result<N>)
    requires ReadsDigits(A) && Answers(A, Digits(m) + ")", r)
    ensures r == Err(SyntaxError)
  {
    var v := A.literal(Digits(m));
    var ts, rest := [Number(v), Symbol(')')], [Symbol(')')];
    NumberThenSymbol(A, m, ')');
    assert ts == [Number(v)] + rest && [')'] == ")";
    NumberReads(A, v, rest);
    hide Lex, Digits, ReadsDigits, Answers, ParseExpr;
    Blamed(A, Digits(m) + ")", ts, r);
  }

  /** A parenthesis that is never closed. */
  lemma Unclosed<N(!new)>(A: Arithmetic<N>, m: nat, r: Result<N>)
    requires ReadsDigits(A) && Answers(A, "(" + Digits(m), r)
    ensures r == Err(SyntaxError)
  {
    var v := A.literal(Digits(m));
    var p, q: Piece<N> := Piece(Symbol('('), "("), Piece(Number(v), Digits(m));
    NumeralIsApart(A, m);
    assert AllProper(A, [p, q]) && Apart([p, q]) by {
      hide Digits, AllDigits;
      assert AllProper(A, [q]) && [q][0] == q;
    }
    PiecesRead(A, [p, q]);
    TextOfTwo(p, q);
    GroupUnclosed(A, v);
    hide Lex, Digits, ReadsDigits, Answers;
    Blamed(A, "(" + Digits(m), [Symbol('('), Number(v)], r);
  }

  lemma GroupUnclosed<N>(A: Arithmetic<N>, v: N)
    ensures var ts := [Symbol('('), Number(v)]; ParseExpr(ts).Stuck? && ExprFault(A, ts) == SyntaxError
  {
    var ts := [Symbol('('), Number(v)];
    NumberReads(A, v, []);
    assert ts[1..] == [Number(v)] + [];
    assert ParsePrimary(ts).Stuck? && PrimaryFault(A, ts) == SyntaxError;
    assert ParseUnary(ts).Stuck? && UnaryFault(A, ts) == SyntaxError;
    assert ParsePower(ts).Stuck? && PowerFault(A, ts) == SyntaxError;
    assert ParseTerm(ts).Stuck? && TermFault(A, ts) == SyntaxError;
  }
}
