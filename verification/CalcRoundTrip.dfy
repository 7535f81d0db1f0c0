/**
 Printing an expression and reading its text back: the tokenizer finds the printed tokens, and so the
 calculator answers with the expression's meaning.
 */
module CalcRoundTrip {
  import opened Decimals
  import opened CalcGrammar
  import opened CalcText
  import opened CalcPrint

  /** `parseFloat` makes a number of every run of digits. */
  ghost predicate ReadsDigits<N>(A: Arithmetic<N>) {
    forall s :: s != "" && AllDigits(s) ==> !A.isNaN(A.literal(s))
  }

  predicate IsWord<N>(p: Piece<N>) { !p.token.Symbol? }

  /** A piece whose text, set apart from other words, reads back as its token. */
  ghost predicate Proper<N>(A: Arithmetic<N>, p: Piece<N>) {
    match p.token
    case Number(v) => p.text != "" && AllDigits(p.text) && v == A.literal(p.text) && !A.isNaN(v)
    case Name(n) => p.text == n && IsLowerName(n)
    case Symbol(c) => p.text == [c] && IsSymbol(c)
  }

  ghost predicate AllProper<N>(A: Arithmetic<N>, ps: seq<Piece<N>>) {
    forall i :: 0 <= i < |ps| ==> Proper(A, ps[i])
  }

  /** No two words meet. */
  predicate Apart<N>(ps: seq<Piece<N>>) {
    forall i :: 0 <= i < |ps| - 1 ==> !IsWord(ps[i]) || !IsWord(ps[i + 1])
  }

  // ------------------------------------------------------------- what is shown is apart

  lemma Infix<N>(A: Arithmetic<N>, a: seq<Piece<N>>, x: Piece<N>, b: seq<Piece<N>>)
    requires AllProper(A, a) && Apart(a) && AllProper(A, b) && Apart(b) && Proper(A, x) && !IsWord(x)
    ensures AllProper(A, a + [x] + b) && Apart(a + [x] + b)
  {}

  lemma SymProper<N>(A: Arithmetic<N>, c: char)
    requires IsSymbol(c)
    ensures Proper<N>(A, Sym(c)) && !IsWord<N>(Sym(c))
  {}

  lemma Nothing<N>(A: Arithmetic<N>)
    ensures AllProper<N>(A, []) && Apart<N>([])
  {}

  lemma {:induction false} ShowIsApart<N>(A: Arithmetic<N>, a: Ast, p: nat)
    requires ReadsDigits(A) && WellNamed(a) && 1 <= p <= 5
    ensures AllProper(A, Show(A, a, p)) && Apart(Show(A, a, p))
    decreases a, if Level(a) < p then 2 else 1
  {
    hide AllProper, Apart, Proper, ReadsDigits;
    if Level(a) < p {
      ShowIsApart(A, a, 1);
      hide Show;
      Nothing(A);
      SymProper(A, '(');
      SymProper(A, ')');
      Infix(A, [], Sym('('), Show(A, a, 1));
      assert [] + [Sym('(')] + Show(A, a, 1) == [Sym('(')] + Show(A, a, 1);
      Infix(A, [Sym('(')] + Show(A, a, 1), Sym(')'), []);
      assert [Sym('(')] + Show(A, a, 1) + [Sym(')')] + [] == [Sym('(')] + Show(A, a, 1) + [Sym(')')];
      ShowGroup(A, a, p);
    } else {
      ShowIsApartRaw(A, a, p);
    }
  }

  lemma ShowGroup<N>(A: Arithmetic<N>, a: Ast, p: nat)
    requires Level(a) < p <= 5
    ensures Show(A, a, p) == [Sym('(')] + Show(A, a, 1) + [Sym(')')]
  {}

  lemma {:induction false} ShowIsApartRaw<N>(A: Arithmetic<N>, a: Ast, p: nat)
    requires ReadsDigits(A) && WellNamed(a) && 1 <= p <= Level(a) <= 5
    ensures AllProper(A, Show(A, a, p)) && Apart(Show(A, a, p))
    decreases a, 0
  {
    hide AllProper, Apart, Proper, ReadsDigits, Digits, ShowArgs, IsLowerName;
    match a
    case Int(n) => NumeralIsApart(A, n);
    case Var(x) => NameIsApart(A, x);
    case Apply(f, args) =>
      NameIsApart(A, f);
      ArgsAreApart(A, args);
      SymProper(A, '(');
      SymProper(A, ')');
      Nothing(A);
      var head: seq<Piece<N>> := [Piece(Name(f), f)];
      Infix(A, head, Sym('('), ShowArgs(A, args));
      Infix(A, head + [Sym('(')] + ShowArgs(A, args), Sym(')'), []);
      assert Show(A, a, p) == head + [Sym('(')] + ShowArgs(A, args) + [Sym(')')] + [];
    case Sign(minus, x) =>
      ShowIsApart(A, x, 4);
      Nothing(A);
      SymProper(A, AddSign(minus));
      Infix(A, [], Sym(AddSign(minus)), Show(A, x, 4));
      assert [] + [Sym(AddSign(minus))] + Show(A, x, 4) == [Sym(AddSign(minus))] + Show(A, x, 4);
    case Raise(l, r) =>
      ShowIsApart(A, l, 4);
      ShowIsApart(A, r, 3);
      SymProper(A, '^');
      Infix(A, Show(A, l, 4), Sym('^'), Show(A, r, 3));
    case Mul(op, l, r) =>
      ShowIsApart(A, l, 2);
      ShowIsApart(A, r, 3);
      SymProper(A, MulSign(op));
      Infix(A, Show(A, l, 2), Sym(MulSign(op)), Show(A, r, 3));
    case Plus(minus, l, r) =>
      ShowIsApart(A, l, 1);
      ShowIsApart(A, r, 2);
      SymProper(A, AddSign(minus));
      Infix(A, Show(A, l, 1), Sym(AddSign(minus)), Show(A, r, 2));
  }

  lemma NumeralIsApart<N>(A: Arithmetic<N>, n: nat)
    requires ReadsDigits(A)
    ensures var ps := [Piece(Number(A.literal(Digits(n))), Digits(n))]; AllProper(A, ps) && Apart(ps)
  {
    DigitsRoundTrip(n);
    hide Digits, AllDigits;
  }

  lemma NameIsApart<N>(A: Arithmetic<N>, x: string)
    requires IsLowerName(x)
    ensures var ps: seq<Piece<N>> := [Piece(Name(x), x)]; AllProper(A, ps) && Apart(ps)
  {}

  lemma {:induction false} ArgsAreApart<N>(A: Arithmetic<N>, args: Asts)
    requires ReadsDigits(A) && AllWellNamed(args)
    ensures AllProper(A, ShowArgs(A, args)) && Apart(ShowArgs(A, args))
    decreases args
  {
    hide Proper, ReadsDigits, Show, WellNamed;
    match args
    case Nil =>
    case Cons(a, rest) =>
      ShowIsApart(A, a, 1);
      if rest.Cons? {
        ArgsAreApart(A, rest);
        SymProper(A, ',');
        Infix(A, Show(A, a, 1), Sym(','), ShowArgs(A, rest));
      }
      hide AllProper, Apart;
  }

  // -------------------------------------------------------------------- reading back

  /** A word ends where the text does or where a symbol stands. */
  predicate EndsWord(rest: string) { rest == "" || IsSymbol(rest[0]) }

  lemma {:induction false} NumberEnds(s: string, rest: string)
    requires AllDigits(s) && EndsWord(rest)
    ensures NumberLength(s + rest, false) == |s|
    decreases |s|
  {
    if s == "" {
      assert s + rest == rest;
    } else {
      assert IsDigit(s[0]);
      assert (s + rest)[1..] == s[1..] + rest;
      NumberEnds(s[1..], rest);
    }
  }

  lemma {:induction false} NameEnds(s: string, rest: string)
    requires (forall i :: 0 <= i < |s| ==> IsNamePart(s[i])) && EndsWord(rest)
    ensures NameLength(s + rest) == |s|
    decreases |s|
  {
    if s == "" {
      assert s + rest == rest;
    } else {
      assert (s + rest)[1..] == s[1..] + rest;
      NameEnds(s[1..], rest);
    }
  }

  lemma LowerStays(s: string)
    requires forall i :: 0 <= i < |s| ==> !('A' <= s[i] <= 'Z')
    ensures Lowered(s) == s
  {}

  /** One piece of a text reads back as its token. */
  lemma PieceReads<N>(A: Arithmetic<N>, p: Piece<N>, rest: string)
    requires Proper(A, p) && (IsWord(p) ==> EndsWord(rest))
    ensures Lex(A, p.text + rest) == CalcText.Cons(p.token, Lex(A, rest))
  {
    var s, n := p.text + rest, |p.text|;
    assert s[0] == p.text[0] && s[..n] == p.text && s[n..] == rest;
    assert s[0..] == s;
    hide Lex, NumberLength, NameLength;
    LexStep(A, s, 0);
    match p.token
    case Number(v) =>
      assert IsDigit(p.text[0]);
      NumberEnds(p.text, rest);
    case Name(x) =>
      assert IsNamePart(p.text[0]);
      NameEnds(p.text, rest);
      LowerStays(x);
    case Symbol(c) =>
  }

  lemma {:induction false} PiecesRead<N>(A: Arithmetic<N>, ps: seq<Piece<N>>)
    requires AllProper(A, ps) && Apart(ps)
    ensures Lex(A, TextOf(ps)) == Ok(TokensOf(ps))
    decreases |ps|
  {
    if ps == [] {
      LexEnd(A, "");
    } else {
      var rest := ps[1..];
      assert forall i :: 0 <= i < |rest| ==> rest[i] == ps[i + 1];
      assert Proper(A, ps[0]);
      if rest != [] { NextText(A, rest); assert ps[0 + 1] == rest[0]; }
      hide Lex, Proper, EndsWord;
      assert AllProper(A, rest) && Apart(rest);
      PiecesRead(A, rest);
      TextEmpty<N>();
      PieceReads(A, ps[0], TextOf(rest));
      assert TokensOf(ps) == [ps[0].token] + TokensOf(rest);
    }
  }

  lemma TextEmpty<N>()
    ensures TextOf<N>([]) == "" && EndsWord("")
  {}

  /** What follows a word is a symbol. */
  lemma NextText<N>(A: Arithmetic<N>, ps: seq<Piece<N>>)
    requires ps != [] && Proper(A, ps[0])
    ensures !IsWord(ps[0]) ==> EndsWord(TextOf(ps))
  {}

  // ---------------------------------------------------------------------- the theorem

  /** The tokens of a printed expression derive it, with its meaning as the value. */
  lemma PrintReads<N>(A: Arithmetic<N>, a: Ast)
    requires ReadsDigits(A) && WellNamed(a)
    ensures Lex(A, Print(a)) == Ok(YieldExpr(AsExpr(A, a)))
    ensures ExprValue(A, AsExpr(A, a)) == Meaning(A, a)
  {
    hide Lex, Show, AsExpr, YieldExpr, ExprValue, Meaning, PrintAt, TextOf, TokensOf, AllProper, Apart,
         ReadsDigits, WellNamed;
    ShowIsApart(A, a, 1);
    PiecesRead(A, Show(A, a, 1));
    ShowText(A, a, 1);
    ExprYield(A, a);
    ExprMeans(A, a);
  }

  /** Whatever `calculate` answers to a printed expression is the expression's meaning, value or fault,
      with a value that is not finite turned into a MathError. */
  lemma RoundTrip<N(!new)>(A: Arithmetic<N>, a: Ast, r: Result<N>)
    requires ReadsDigits(A) && WellNamed(a) && Answers(A, Print(a), r)
    ensures r == Finite(A, Meaning(A, a))
  {
    hide Lex, AsExpr, YieldExpr, ExprValue, Meaning, Print, ReadsDigits, WellNamed;
    PrintReads(A, a);
  }

  /** A call of a name the function table inherits is a TypeError, not a NameError, unless an argument fails. */
  lemma InheritedIsTypeError<N>(A: Arithmetic<N>, name: string, args: Asts)
    ensures name in INHERITED && Meanings(A, [], args).Ok? ==> Meaning(A, Apply(name, args)) == Err(TypeError)
    ensures Meaning(A, Apply(name, args)) == Err(NameError) <==>
      (!IsFunction(name) && name !in INHERITED) || Meanings(A, [], args) == Err(NameError)
  {}

  const CONSTRUCTOR_OF_ONE: Ast := Apply("constructor", CalcPrint.Cons(Int(1), Nil))

  lemma ConstructorText()
    ensures Print(CONSTRUCTOR_OF_ONE) == "constructor(1)" && WellNamed(CONSTRUCTOR_OF_ONE)
  {
    assert Digits(1) == "1";
  }

  /** For example. */
  lemma ConstructorExample<N(!new)>(A: Arithmetic<N>, r: Result<N>)
    requires ReadsDigits(A) && Answers(A, "constructor(1)", r)
    ensures r == Err(TypeError)
  {
    hide Answers, Meaning, Print, WellNamed, ReadsDigits;
    ConstructorText();
    ConstructorMeans(A);
    RoundTrip(A, CONSTRUCTOR_OF_ONE, r);
  }

  lemma ConstructorMeans<N>(A: Arithmetic<N>)
    ensures Meaning(A, CONSTRUCTOR_OF_ONE) == Err(TypeError)
  {
    assert Meanings(A, [], CalcPrint.Cons(Int(1), Nil)).Ok?;
  }
}
