/**
 The calculator's tokenizer and `calculate`, from the cell's text to its value.
 */
module CalcText {
  import opened Characters
  import opened Decimals
  import opened CalcGrammar
  import opened CalcParse
  import opened Calc

  predicate IsNameStart(c: char) { 'a' <= c <= 'z' || 'A' <= c <= 'Z' || c == '_' }

  predicate IsNamePart(c: char) { IsNameStart(c) || IsDigit(c) }

  predicate IsSpace(c: char) { c == ' ' || c == '\t' || c == '\n' || c == '\r' }

  predicate IsSymbol(c: char) { c in "+-*/%^()," }

  function Lowered(s: string): (r: string)
    ensures |r| == |s|
  {
    seq(|s|, i requires 0 <= i < |s| => ToLower(s[i]))
  }

  /** A character of a text, or nothing past its end. */
  predicate DigitAt(s: string, i: nat) { i < |s| && IsDigit(s[i]) }

  predicate StartsNumber(s: string) { DigitAt(s, 0) || (s != "" && s[0] == '.' && DigitAt(s, 1)) }

  predicate StartsExponent(s: string) {
    s != "" && (s[0] == 'e' || s[0] == 'E')
    && (DigitAt(s, 1) || (|s| > 1 && (s[1] == '-' || s[1] == '+') && DigitAt(s, 2)))
  }

  /** How much of a text the number at its front takes. */
  function NumberLength(s: string, seenDot: bool): (n: nat)
    ensures n <= |s|
  {
    if DigitAt(s, 0) then 1 + NumberLength(s[1..], seenDot)
    else if s != "" && s[0] == '.' && !seenDot then 1 + NumberLength(s[1..], true)
    else if StartsExponent(s) then 2 + NumberLength(s[2..], seenDot)
    else 0
  }

  function NameLength(s: string): (n: nat)
    ensures n <= |s|
  {
    if s != "" && IsNamePart(s[0]) then 1 + NameLength(s[1..]) else 0
  }

  lemma NumberAdvances(s: string)
    requires StartsNumber(s)
    ensures NumberLength(s, false) > 0
  {}

  function Cons<N>(t: Token<N>, r: Result<seq<Token<N>>>): Result<seq<Token<N>>> {
    match r case Ok(ts) => Ok([t] + ts) case Err(f) => Err(f)
  }

  /** The tokens of a text, longest first. */
  function Lex<N>(A: Arithmetic<N>, s: string): Result<seq<Token<N>>>
    decreases |s|
  {
    if s == "" then Ok([])
    else if IsSpace(s[0]) then Lex(A, s[1..])
    else if StartsNumber(s) then
      NumberAdvances(s);
      var n := NumberLength(s, false);
      var value := A.literal(s[..n]);
      if A.isNaN(value) then Err(SyntaxError) else Cons(Number(value), Lex(A, s[n..]))
    else if IsNameStart(s[0]) then
      var n := NameLength(s);
      Cons(Name(Lowered(s[..n])), Lex(A, s[n..]))
    else if IsSymbol(s[0]) then Cons(Symbol(s[0]), Lex(A, s[1..]))
    else Err(SyntaxError)
  }

  /** Tokens found already, in front of what the rest of the text gives. */
  function After<N>(ts: seq<Token<N>>, r: Result<seq<Token<N>>>): Result<seq<Token<N>>> {
    match r case Ok(us) => Ok(ts + us) case Err(f) => Err(f)
  }

  lemma AfterCons<N>(ts: seq<Token<N>>, t: Token<N>, r: Result<seq<Token<N>>>)
    ensures After(ts, Cons(t, r)) == After(ts + [t], r)
  {
    if r.Ok? { assert ts + ([t] + r.value) == (ts + [t]) + r.value; }
  }

  method ScanNumber(src: string, start: nat) returns (i: nat)
    requires start <= |src|
    ensures i == start + NumberLength(src[start..], false)
  {
    hide DigitAt, StartsExponent, NumberLength;
    i := start;
    var seenDot := false;
    while i < |src|
      invariant start <= i <= |src|
      invariant start + NumberLength(src[start..], false) == i + NumberLength(src[i..], seenDot)
    {
      NumberStep(src, i, seenDot);
      if IsDigit(src[i]) {
        i := i + 1;
      } else if src[i] == '.' && !seenDot {
        seenDot := true;
        i := i + 1;
      } else if StartsExponent(src[i..]) {
        i := i + 2;
      } else {
        break;
      }
    }
    if i == |src| { NumberStep(src, i, seenDot); }
  }

  lemma NumberStep(s: string, i: nat, seenDot: bool)
    requires i <= |s|
    ensures var t := s[i..];
      NumberLength(t, seenDot) ==
      if i < |s| && IsDigit(s[i]) then 1 + NumberLength(s[i + 1..], seenDot)
      else if i < |s| && s[i] == '.' && !seenDot then 1 + NumberLength(s[i + 1..], true)
      else if StartsExponent(t) then
        assert i + 2 <= |s|;
        2 + NumberLength(s[i + 2..], seenDot)
      else 0
  {}

  method ScanName(src: string, start: nat) returns (i: nat)
    requires start <= |src|
    ensures i == start + NameLength(src[start..])
  {
    i := start;
    while i < |src| && IsNamePart(src[i])
      invariant start <= i <= |src|
      invariant start + NameLength(src[start..]) == i + NameLength(src[i..])
    {
      assert src[i..][1..] == src[i + 1..];
      i := i + 1;
    }
  }

  method Tokenize<N>(A: Arithmetic<N>, src: string) returns (r: Result<seq<Token<N>>>)
    ensures r == Lex(A, src)
  {
    hide Lex, NumberLength, NameLength, StartsNumber;
    var tokens: seq<Token<N>> := [];
    var i := 0;
    assert src[0..] == src;
    AfterNothing(Lex(A, src));
    while i < |src|
      invariant i <= |src|
      invariant After(tokens, Lex(A, src[i..])) == Lex(A, src)
    {
      LexStep(A, src, i);
      var c := src[i];
      if IsSpace(c) {
        i := i + 1;
        continue;
      }
      if StartsNumber(src[i..]) {
        var start := i;
        i := ScanNumber(src, start);
        var value := A.literal(src[start..i]);
        if A.isNaN(value) {
          return Err(SyntaxError);
        }
        AfterCons(tokens, Number(value), Lex(A, src[i..]));
        tokens := tokens + [Number(value)];
        continue;
      }
      if IsNameStart(c) {
        var start := i;
        i := ScanName(src, start);
        var name := Lowered(src[start..i]);
        AfterCons(tokens, Name(name), Lex(A, src[i..]));
        tokens := tokens + [Name(name)];
        continue;
      }
      if IsSymbol(c) {
        AfterCons(tokens, Symbol(c), Lex(A, src[i + 1..]));
        tokens := tokens + [Symbol(c)];
        i := i + 1;
        continue;
      }
      return Err(SyntaxError);
    }
    LexEnd(A, src[i..]);
    assert tokens + [] == tokens;
    return Ok(tokens);
  }

  lemma AfterNothing<N>(r: Result<seq<Token<N>>>)
    ensures After([], r) == r
  {
    if r.Ok? { assert [] + r.value == r.value; }
  }

  lemma LexEnd<N>(A: Arithmetic<N>, s: string)
    requires s == ""
    ensures Lex(A, s) == Ok([])
  {}

  /** One token of the text from i on. */
  lemma LexStep<N>(A: Arithmetic<N>, s: string, i: nat)
    requires i < |s|
    ensures var t := s[i..];
      && (StartsNumber(t) ==> NumberLength(t, false) > 0)
      && (IsNameStart(s[i]) ==> NameLength(t) > 0)
      && Lex(A, t) ==
         if IsSpace(s[i]) then Lex(A, s[i + 1..])
         else if StartsNumber(t) then
           var end := i + NumberLength(t, false);
           if A.isNaN(A.literal(s[i..end])) then Err(SyntaxError)
           else Cons(Number(A.literal(s[i..end])), Lex(A, s[end..]))
         else if IsNameStart(s[i]) then
           var end := i + NameLength(t);
           Cons(Name(Lowered(s[i..end])), Lex(A, s[end..]))
         else if IsSymbol(s[i]) then Cons(Symbol(s[i]), Lex(A, s[i + 1..]))
         else Err(SyntaxError)
  {
    var t := s[i..];
    if StartsNumber(t) { NumberAdvances(t); }
    assert NameLength(t) > 0 <== IsNameStart(s[i]);
    hide NumberLength, NameLength, StartsNumber;
    forall n: nat | n <= |t| ensures t[..n] == s[i..i + n] && t[n..] == s[i + n..] {}
  }

  // --------------------------------------------------------------------- calculate

  /** JavaScript's `\s`. */
  predicate IsBlank(c: char) {
    || IsSpace(c) || c == '\U{B}' || c == '\U{C}' || c == '\U{A0}' || c == '\U{1680}' || '\U{2000}' <= c <= '\U{200A}'
    || c == '\U{2028}' || c == '\U{2029}' || c == '\U{202F}' || c == '\U{205F}' || c == '\U{3000}' || c == '\U{FEFF}'
  }

  function Finite<N>(A: Arithmetic<N>, r: Result<N>): Result<N> {
    if r.Ok? && !A.isFinite(r.value) then Err(MathError) else r
  }

  ghost predicate Derivable<N(!new)>(ts: seq<Token<N>>) { exists e: Expr<N> :: YieldExpr(e) == ts }

  /** The fault when there is no derivation of the whole list: the first in reading order, or, when only the
      front of the list is an expression and has a value, that something trails it. */
  function Blame<N>(A: Arithmetic<N>, ts: seq<Token<N>>): Fault {
    match ParseExpr(ts)
    case Stuck => ExprFault(A, ts)
    case Read(e, _) =>
      match ExprValue(A, e)
      case Err(f) => f
      case Ok(_) => SyntaxError
  }

  /** What `calculate` answers: the finite value of the derivation of the text's tokens, the fault of
      evaluating it, or the first fault when there is no derivation. */
  ghost predicate Answers<N(!new)>(A: Arithmetic<N>, src: string, r: Result<N>) {
    match Lex(A, src)
    case Err(f) => r == Err(SyntaxError)
    case Ok(ts) =>
      && (forall e :: YieldExpr(e) == ts ==> r == Finite(A, ExprValue(A, e)))
      && (!Derivable(ts) ==> r == Err(Blame(A, ts)))
  }

  method Calculate<N(!new)>(A: Arithmetic<N>, src: string) returns (r: Result<N>)
    ensures Answers(A, src, r)
  {
    hide Lex, ExprOutcome, YieldExpr, ExprValue, Blame;
    if forall i :: 0 <= i < |src| ==> IsBlank(src[i]) {
      BlankFails(A, src);
      return Err(SyntaxError);
    }
    var tokens := Tokenize(A, src);
    if tokens.Err? {
      LexFault(A, src);
      return Err(tokens.fault);
    }
    var parser := new Parser(A, tokens.value);
    assert parser.Rest() == tokens.value;
    r := parser.ParseExpr();
    OutcomeAnswers(A, tokens.value, r, parser.Rest());
    if r.Ok? {
      if parser.pos < |parser.tokens| {
        r := Err(SyntaxError);
      } else if !A.isFinite(r.value) {
        r := Err(MathError);
      }
    }
  }

  lemma {:induction false} LexFault<N>(A: Arithmetic<N>, s: string)
    ensures Lex(A, s).Err? ==> Lex(A, s).fault == SyntaxError
    decreases |s|
  {
    if s != "" {
      LexStep(A, s, 0);
      assert s[0..] == s;
      hide Lex, NumberLength, NameLength, StartsNumber, Lowered;
      LexFault(A, s[1..]);
      if StartsNumber(s) { LexFault(A, s[NumberLength(s, false)..]); }
      if IsNameStart(s[0]) { LexFault(A, s[NameLength(s)..]); }
    }
  }

  lemma NothingIsUnderivable<N>(e: Expr<N>)
    ensures YieldExpr(e) != []
  {
    hide YieldTerm, YieldSums;
    TermStart(e.first);
  }

  lemma NothingIsBlamed<N>(A: Arithmetic<N>)
    ensures Blame(A, []) == SyntaxError
  {
    ExprSteps<N>(A, []);
    TermSteps<N>(A, []);
    PowerSteps<N>(A, []);
    UnarySteps<N>(A, []);
    OtherPrimaries<N>(A, []);
    assert Blame(A, []) == ExprOutcome<N>(A, []).fault;
    hide ParseExpr, ExprFault;
  }

  /** Blank text has no tokens, or fails to have any. */
  lemma {:induction false} BlankLex<N>(A: Arithmetic<N>, s: string)
    requires forall i :: 0 <= i < |s| ==> IsBlank(s[i])
    ensures Lex(A, s) == Ok([]) || Lex(A, s) == Err(SyntaxError)
    decreases |s|
  {
    if s != "" {
      assert IsBlank(s[0]);
      assert !StartsNumber(s) && !IsNameStart(s[0]) && !IsSymbol(s[0]);
      BlankLex(A, s[1..]);
    }
  }

  lemma BlankFails<N(!new)>(A: Arithmetic<N>, s: string)
    requires forall i :: 0 <= i < |s| ==> IsBlank(s[i])
    ensures Answers(A, s, Err(SyntaxError))
  {
    hide Lex, YieldExpr;
    BlankLex(A, s);
    NothingIsBlamed(A);
    hide Blame;
    forall e: Expr<N> ensures YieldExpr(e) != [] { NothingIsUnderivable(e); }
  }

  lemma OutcomeAnswers<N(!new)>(A: Arithmetic<N>, ts: seq<Token<N>>, r: Result<N>, rest: seq<Token<N>>)
    requires Agrees(ExprOutcome(A, ts), r, rest)
    ensures forall e :: YieldExpr(e) == ts ==> r == ExprValue(A, e) && (r.Ok? ==> rest == [])
    ensures !Derivable(ts) ==> if r.Err? then r.fault == Blame(A, ts) else rest != [] && Blame(A, ts) == SyntaxError
  {
    hide YieldExpr, ParseExpr, ExprValue, ExprFault;
    forall e | YieldExpr(e) == ts ensures r == ExprValue(A, e) && (r.Ok? ==> rest == []) { ParseAllIsGrammar(ts, e); }
    if r.Ok? && rest == [] {
      ParseAllIsGrammar(ts, ParseExpr(ts).tree);
    }
  }

  /** The calculator returns a value exactly when the text's tokens derive, by the stated grammar, an
      expression whose evaluation afterwards gives that value, and the value is finite. */
  lemma AnswersExactly<N(!new)>(A: Arithmetic<N>, src: string, r: Result<N>, v: N)
    requires Answers(A, src, r)
    ensures r == Ok(v) <==>
      Lex(A, src).Ok? && A.isFinite(v) && exists e :: YieldExpr(e) == Lex(A, src).value && ExprValue(A, e) == Ok(v)
  {
    hide Lex, YieldExpr, ExprValue;
    if r == Ok(v) {
      assert Lex(A, src).Ok? && Derivable(Lex(A, src).value);
      var e :| YieldExpr(e) == Lex(A, src).value;
      assert r == Finite(A, ExprValue(A, e));
      assert A.isFinite(v);
      assert ExprValue(A, e) == Ok(v);
    } else if Lex(A, src).Ok? {
      forall e | YieldExpr(e) == Lex(A, src).value ensures r == Finite(A, ExprValue(A, e)) {}
    }
  }
}
