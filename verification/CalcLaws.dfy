/**
 What the calculator answers, from the text to the value: each operator, sign, constant and function by
 its own name, the order of evaluation, and how numbers and names are read.
 */
module CalcLaws {
  import opened Decimals
  import opened CalcGrammar
  import opened CalcText
  import opened CalcPrint
  import opened CalcRoundTrip

  /** The answer is this value, or a MathError if it is not finite. */
  predicate IsAnswer<N(==)>(A: Arithmetic<N>, r: Result<N>, x: N) {
    r == if A.isFinite(x) then Ok(x) else Err(MathError)
  }

  /** The number written with the digits of n. */
  function Num<N>(A: Arithmetic<N>, n: nat): N { A.literal(Digits(n)) }

  lemma Given<N(!new)>(A: Arithmetic<N>, a: Ast, text: string, r: Result<N>)
    requires ReadsDigits(A) && WellNamed(a) && Print(a) == text && Answers(A, text, r)
    ensures Meaning(A, a).Err? ==> r == Meaning(A, a)
    ensures Meaning(A, a).Ok? ==> IsAnswer(A, r, Meaning(A, a).value)
  {
    hide Answers, Meaning, Print, WellNamed, ReadsDigits;
    RoundTrip(A, a, r);
  }

  // ---------------------------------------------------------------- how texts are made

  lemma IntAt(n: nat, p: nat)
    requires 1 <= p <= 5
    ensures PrintAt(Int(n), p) == Digits(n)
  {}

  lemma PlusAt(minus: bool, l: Ast, r: Ast)
    ensures PrintAt(Plus(minus, l, r), 1) == PrintAt(l, 1) + (if minus then "-" else "+") + PrintAt(r, 2)
  {}

  lemma MulAt(op: MulOp, l: Ast, r: Ast, p: nat)
    requires 1 <= p <= 2
    ensures PrintAt(Mul(op, l, r), p) ==
      PrintAt(l, 2) + (match op case Times => "*" case Over => "/" case Modulo => "%") + PrintAt(r, 3)
  {}

  lemma RaiseAt(l: Ast, r: Ast, p: nat)
    requires 1 <= p <= 3
    ensures PrintAt(Raise(l, r), p) == PrintAt(l, 4) + "^" + PrintAt(r, 3)
  {}

  lemma SignAt(minus: bool, x: Ast, p: nat)
    requires 1 <= p <= 4
    ensures PrintAt(Sign(minus, x), p) == (if minus then "-" else "+") + PrintAt(x, 4)
  {}

  lemma GroupAt(a: Ast, p: nat)
    requires Level(a) < p <= 5
    ensures PrintAt(a, p) == "(" + PrintAt(a, 1) + ")"
  {}

  // --------------------------------------------------------------------- operators

  function Operation(sign: char, l: Ast, r: Ast): Ast {
    if sign == '+' then Plus(false, l, r) else if sign == '-' then Plus(true, l, r)
    else if sign == '*' then Mul(Times, l, r) else if sign == '/' then Mul(Over, l, r)
    else if sign == '%' then Mul(Modulo, l, r) else Raise(l, r)
  }

  lemma OperationText(sign: char, m: nat, n: nat)
    requires sign in "+-*/%^"
    ensures Print(Operation(sign, Int(m), Int(n))) == Digits(m) + [sign] + Digits(n)
    ensures WellNamed(Operation(sign, Int(m), Int(n)))
  {
    hide Digits, PrintAt;
    var l, r := Int(m), Int(n);
    forall p | 1 <= p <= 5 ensures PrintAt(l, p) == Digits(m) && PrintAt(r, p) == Digits(n) {
      IntAt(m, p);
      IntAt(n, p);
    }
    if sign == '+' { PlusAt(false, l, r); }
    else if sign == '-' { PlusAt(true, l, r); }
    else if sign == '*' { MulAt(Times, l, r, 1); }
    else if sign == '/' { MulAt(Over, l, r, 1); }
    else if sign == '%' { MulAt(Modulo, l, r, 1); }
    else { RaiseAt(l, r, 1); }
  }

  lemma OperationMeans<N>(A: Arithmetic<N>, sign: char, m: nat, n: nat)
    requires sign in "+-*/%^"
    ensures var x, y, v := Num(A, m), Num(A, n), Meaning(A, Operation(sign, Int(m), Int(n)));
      && (sign == '+' ==> v == Ok(A.add(x, y))) && (sign == '-' ==> v == Ok(A.sub(x, y)))
      && (sign == '*' ==> v == Ok(A.mul(x, y))) && (sign == '^' ==> v == Ok(A.pow(x, y)))
      && (sign == '/' ==> v == if A.isZero(y) then Err(ZeroDivisionError) else Ok(A.div(x, y)))
      && (sign == '%' ==> v == if A.isZero(y) then Err(ZeroDivisionError) else Ok(A.mod(x, y)))
  {
    hide Digits;
  }

  /** Two numbers and the operator between them. */
  lemma Operators<N(!new)>(A: Arithmetic<N>, m: nat, sign: char, n: nat, r: Result<N>)
    requires ReadsDigits(A) && sign in "+-*/%^" && Answers(A, Digits(m) + [sign] + Digits(n), r)
    ensures var x, y := Num(A, m), Num(A, n);
      && (sign == '+' ==> IsAnswer(A, r, A.add(x, y)))
      && (sign == '-' ==> IsAnswer(A, r, A.sub(x, y)))
      && (sign == '*' ==> IsAnswer(A, r, A.mul(x, y)))
      && (sign == '/' ==> if A.isZero(y) then r == Err(ZeroDivisionError) else IsAnswer(A, r, A.div(x, y)))
      && (sign == '%' ==> if A.isZero(y) then r == Err(ZeroDivisionError) else IsAnswer(A, r, A.mod(x, y)))
      && (sign == '^' ==> IsAnswer(A, r, A.pow(x, y)))
  {
    hide Answers, Meaning, Operation, Print, Digits, WellNamed, ReadsDigits;
    OperationText(sign, m, n);
    OperationMeans(A, sign, m, n);
    Given(A, Operation(sign, Int(m), Int(n)), Digits(m) + [sign] + Digits(n), r);
  }

  lemma SignedText(minus: bool, m: nat)
    ensures Print(Sign(minus, Int(m))) == (if minus then "-" else "+") + Digits(m) && WellNamed(Sign(minus, Int(m)))
  {
    hide Digits, PrintAt;
    IntAt(m, 4);
    SignAt(minus, Int(m), 1);
  }

  /** A number and a sign before it. */
  lemma Signs<N(!new)>(A: Arithmetic<N>, m: nat, r: Result<N>)
    requires ReadsDigits(A)
    ensures Answers(A, "-" + Digits(m), r) ==> IsAnswer(A, r, A.neg(Num(A, m)))
    ensures Answers(A, "+" + Digits(m), r) ==> IsAnswer(A, r, Num(A, m))
  {
    hide Answers, Print, Digits, WellNamed, ReadsDigits;
    SignedText(true, m);
    SignedText(false, m);
    if Answers(A, "-" + Digits(m), r) { Given(A, Sign(true, Int(m)), "-" + Digits(m), r); }
    if Answers(A, "+" + Digits(m), r) { Given(A, Sign(false, Int(m)), "+" + Digits(m), r); }
  }

  // -------------------------------------------------------------- order of evaluation

  /** Products before sums. */
  lemma ProductsFirst<N(!new)>(A: Arithmetic<N>, m: nat, n: nat, k: nat, r: Result<N>)
    requires ReadsDigits(A) && Answers(A, Digits(m) + "+" + Digits(n) + "*" + Digits(k), r)
    ensures IsAnswer(A, r, A.add(Num(A, m), A.mul(Num(A, n), Num(A, k))))
  {
    hide Answers, PrintAt, Digits, ReadsDigits;
    var p := Mul(Times, Int(n), Int(k));
    IntAt(m, 1);
    IntAt(n, 2);
    IntAt(k, 3);
    MulAt(Times, Int(n), Int(k), 2);
    PlusAt(false, Int(m), p);
    assert Digits(m) + "+" + (Digits(n) + "*" + Digits(k)) == Digits(m) + "+" + Digits(n) + "*" + Digits(k);
    assert WellNamed(p);
    assert Meaning(A, p) == Ok(A.mul(Num(A, n), Num(A, k)));
    Given(A, Plus(false, Int(m), p), Digits(m) + "+" + Digits(n) + "*" + Digits(k), r);
  }

  /** Powers before products. */
  lemma PowersFirst<N(!new)>(A: Arithmetic<N>, m: nat, n: nat, k: nat, r: Result<N>)
    requires ReadsDigits(A) && Answers(A, Digits(m) + "*" + Digits(n) + "^" + Digits(k), r)
    ensures IsAnswer(A, r, A.mul(Num(A, m), A.pow(Num(A, n), Num(A, k))))
  {
    hide Answers, PrintAt, Digits, ReadsDigits;
    var p := Raise(Int(n), Int(k));
    IntAt(m, 2);
    IntAt(n, 4);
    IntAt(k, 3);
    RaiseAt(Int(n), Int(k), 3);
    MulAt(Times, Int(m), p, 1);
    assert Digits(m) + "*" + (Digits(n) + "^" + Digits(k)) == Digits(m) + "*" + Digits(n) + "^" + Digits(k);
    assert WellNamed(p);
    assert Meaning(A, p) == Ok(A.pow(Num(A, n), Num(A, k)));
    Given(A, Mul(Times, Int(m), p), Digits(m) + "*" + Digits(n) + "^" + Digits(k), r);
  }

  /** Parentheses before both. */
  lemma GroupsFirst<N(!new)>(A: Arithmetic<N>, m: nat, n: nat, k: nat, r: Result<N>)
    requires ReadsDigits(A) && Answers(A, "(" + Digits(m) + "+" + Digits(n) + ")*" + Digits(k), r)
    ensures IsAnswer(A, r, A.mul(A.add(Num(A, m), Num(A, n)), Num(A, k)))
  {
    hide Answers, PrintAt, Digits, ReadsDigits;
    var p := Plus(false, Int(m), Int(n));
    IntAt(m, 1);
    IntAt(n, 2);
    IntAt(k, 3);
    PlusAt(false, Int(m), Int(n));
    GroupAt(p, 2);
    MulAt(Times, p, Int(k), 1);
    assert "(" + (Digits(m) + "+" + Digits(n)) + ")" + "*" + Digits(k)
        == "(" + Digits(m) + "+" + Digits(n) + ")*" + Digits(k);
    assert WellNamed(p);
    assert Meaning(A, p) == Ok(A.add(Num(A, m), Num(A, n)));
    Given(A, Mul(Times, p, Int(k)), "(" + Digits(m) + "+" + Digits(n) + ")*" + Digits(k), r);
  }

  /** Sums from the left. */
  lemma SumsFromTheLeft<N(!new)>(A: Arithmetic<N>, m: nat, n: nat, k: nat, r: Result<N>)
    requires ReadsDigits(A) && Answers(A, Digits(m) + "-" + Digits(n) + "-" + Digits(k), r)
    ensures IsAnswer(A, r, A.sub(A.sub(Num(A, m), Num(A, n)), Num(A, k)))
  {
    hide Answers, PrintAt, Digits, ReadsDigits;
    var p := Plus(true, Int(m), Int(n));
    IntAt(m, 1);
    IntAt(n, 2);
    IntAt(k, 2);
    PlusAt(true, Int(m), Int(n));
    PlusAt(true, p, Int(k));
    assert WellNamed(p);
    assert Meaning(A, p) == Ok(A.sub(Num(A, m), Num(A, n)));
    Given(A, Plus(true, p, Int(k)), Digits(m) + "-" + Digits(n) + "-" + Digits(k), r);
  }

  /** Products from the left. */
  lemma ProductsFromTheLeft<N(!new)>(A: Arithmetic<N>, m: nat, n: nat, k: nat, r: Result<N>)
    requires ReadsDigits(A) && !A.isZero(Num(A, n)) && !A.isZero(Num(A, k))
    requires Answers(A, Digits(m) + "/" + Digits(n) + "/" + Digits(k), r)
    ensures IsAnswer(A, r, A.div(A.div(Num(A, m), Num(A, n)), Num(A, k)))
  {
    hide Answers, PrintAt, Digits, ReadsDigits;
    var p := Mul(Over, Int(m), Int(n));
    IntAt(m, 2);
    IntAt(n, 3);
    IntAt(k, 3);
    MulAt(Over, Int(m), Int(n), 2);
    MulAt(Over, p, Int(k), 1);
    assert WellNamed(p);
    assert Meaning(A, p) == Ok(A.div(Num(A, m), Num(A, n)));
    Given(A, Mul(Over, p, Int(k)), Digits(m) + "/" + Digits(n) + "/" + Digits(k), r);
  }

  /** Powers from the right. */
  lemma PowersFromTheRight<N(!new)>(A: Arithmetic<N>, m: nat, n: nat, k: nat, r: Result<N>)
    requires ReadsDigits(A) && Answers(A, Digits(m) + "^" + Digits(n) + "^" + Digits(k), r)
    ensures IsAnswer(A, r, A.pow(Num(A, m), A.pow(Num(A, n), Num(A, k))))
  {
    hide Answers, PrintAt, Digits, ReadsDigits;
    var p := Raise(Int(n), Int(k));
    IntAt(m, 4);
    IntAt(n, 4);
    IntAt(k, 3);
    RaiseAt(Int(n), Int(k), 3);
    RaiseAt(Int(m), p, 1);
    assert Digits(m) + "^" + (Digits(n) + "^" + Digits(k)) == Digits(m) + "^" + Digits(n) + "^" + Digits(k);
    assert WellNamed(p);
    assert Meaning(A, p) == Ok(A.pow(Num(A, n), Num(A, k)));
    Given(A, Raise(Int(m), p), Digits(m) + "^" + Digits(n) + "^" + Digits(k), r);
  }

  /** A sign before the power. */
  lemma SignsFirst<N(!new)>(A: Arithmetic<N>, m: nat, n: nat, r: Result<N>)
    requires ReadsDigits(A) && Answers(A, "-" + Digits(m) + "^" + Digits(n), r)
    ensures IsAnswer(A, r, A.pow(A.neg(Num(A, m)), Num(A, n)))
  {
    hide Answers, PrintAt, Digits, ReadsDigits;
    var p := Sign(true, Int(m));
    IntAt(m, 4);
    IntAt(n, 3);
    SignAt(true, Int(m), 4);
    RaiseAt(p, Int(n), 1);
    assert WellNamed(p);
    assert Meaning(A, p) == Ok(A.neg(Num(A, m)));
    Given(A, Raise(p, Int(n)), "-" + Digits(m) + "^" + Digits(n), r);
  }

  // ------------------------------------------------------------------------- names

  /** The functions of one argument, and those of two. */
  const ONE: set<string> := {"sqrt", "abs", "sin", "cos", "tan", "exp", "log", "floor", "ceil", "round"}
  const TWO: set<string> := {"pow", "min", "max"}

  /** A name in lower case, and no other. */
  predicate IsName(s: string) {
    && s != "" && !('0' <= s[0] <= '9')
    && forall i :: 0 <= i < |s| ==> 'a' <= s[i] <= 'z' || '0' <= s[i] <= '9' || s[i] == '_'
  }

  lemma NameText(x: string)
    requires IsName(x)
    ensures Print(Var(x)) == x && WellNamed(Var(x))
  {}

  /** A name alone: a constant, a function that is not called, or nothing known. */
  lemma Names<N(!new)>(A: Arithmetic<N>, x: string, r: Result<N>)
    requires ReadsDigits(A) && IsName(x) && Answers(A, x, r)
    ensures x == "pi" ==> IsAnswer(A, r, A.pi)
    ensures x == "e" ==> IsAnswer(A, r, A.e)
    ensures x in ONE || x in TWO ==> r == Err(SyntaxError)
    ensures x !in ONE && x !in TWO && x != "pi" && x != "e" ==> r == Err(NameError)
  {
    hide Answers, Print, ReadsDigits, WellNamed;
    NameText(x);
    Given(A, Var(x), x, r);
  }

  lemma CallText(x: string, args: Asts)
    requires IsName(x) && AllWellNamed(args)
    ensures Print(Apply(x, args)) == x + "(" + PrintArgs(args) + ")" && WellNamed(Apply(x, args))
  {
    hide PrintArgs, AllWellNamed;
  }

  lemma ArgTexts(m: nat, n: nat)
    ensures PrintArgs(Nil) == "" && AllWellNamed(Nil)
    ensures var one := CalcPrint.Cons(Int(m), Nil); PrintArgs(one) == Digits(m) && AllWellNamed(one)
    ensures var two := CalcPrint.Cons(Int(m), CalcPrint.Cons(Int(n), Nil));
      PrintArgs(two) == Digits(m) + "," + Digits(n) && AllWellNamed(two)
  {
    hide Digits, PrintAt;
    IntAt(m, 1);
    IntAt(n, 1);
    var one := CalcPrint.Cons(Int(n), Nil);
    assert PrintArgs(one) == Digits(n) && AllWellNamed(one);
  }

  lemma ArgMeanings<N>(A: Arithmetic<N>, m: nat, n: nat)
    ensures Meanings(A, [], CalcPrint.Cons(Int(m), Nil)) == Ok([Num(A, m)])
    ensures Meanings(A, [], CalcPrint.Cons(Int(m), CalcPrint.Cons(Int(n), Nil))) == Ok([Num(A, m), Num(A, n)])
  {
    hide Digits;
    assert [] + [Num(A, m)] == [Num(A, m)] && [Num(A, m)] + [Num(A, n)] == [Num(A, m), Num(A, n)];
    assert Meanings(A, [Num(A, m)], CalcPrint.Cons(Int(n), Nil)) == Meanings(A, [Num(A, m), Num(A, n)], Nil);
  }

  /** A call with one argument. */
  lemma UnaryCalls<N(!new)>(A: Arithmetic<N>, x: string, m: nat, r: Result<N>)
    requires ReadsDigits(A) && IsName(x) && Answers(A, x + "(" + Digits(m) + ")", r)
    ensures x in ONE ==> IsAnswer(A, r, A.unary(x, Num(A, m)))
    ensures x in TWO || x == "constructor" || x == "__proto__" ==> r == Err(TypeError)
    ensures x !in ONE && x !in TWO && x != "constructor" && x != "__proto__" ==> r == Err(NameError)
  {
    hide Answers, Print, Digits, ReadsDigits, WellNamed;
    var args := CalcPrint.Cons(Int(m), Nil);
    ArgTexts(m, m);
    CallText(x, args);
    ArgMeanings(A, m, m);
    hide Meanings, PrintArgs, AllWellNamed;
    Given(A, Apply(x, args), x + "(" + Digits(m) + ")", r);
  }

  /** A call with two arguments, in their order, or with none. */
  lemma BinaryCalls<N(!new)>(A: Arithmetic<N>, x: string, m: nat, n: nat, r: Result<N>)
    requires ReadsDigits(A) && IsName(x) && Answers(A, x + "(" + Digits(m) + "," + Digits(n) + ")", r)
    ensures x in TWO ==> IsAnswer(A, r, A.binary(x, Num(A, m), Num(A, n)))
    ensures x in ONE ==> r == Err(TypeError)
  {
    hide Answers, Print, Digits, ReadsDigits, WellNamed;
    var args := CalcPrint.Cons(Int(m), CalcPrint.Cons(Int(n), Nil));
    ArgTexts(m, n);
    CallText(x, args);
    ArgMeanings(A, m, n);
    hide Meanings, PrintArgs, AllWellNamed;
    assert x + "(" + (Digits(m) + "," + Digits(n)) + ")" == x + "(" + Digits(m) + "," + Digits(n) + ")";
    Given(A, Apply(x, args), x + "(" + Digits(m) + "," + Digits(n) + ")", r);
  }

  lemma EmptyCalls<N(!new)>(A: Arithmetic<N>, x: string, r: Result<N>)
    requires ReadsDigits(A) && IsName(x) && Answers(A, x + "()", r)
    ensures x in ONE || x in TWO ==> r == Err(TypeError)
  {
    hide Answers, Print, ReadsDigits, WellNamed;
    ArgTexts(0, 0);
    CallText(x, Nil);
    assert x + "(" + "" + ")" == x + "()";
    Given(A, Apply(x, Nil), x + "()", r);
  }

  // ------------------------------------------------------------------------ reading

  /** Some digits. */
  predicate IsDigits(s: string) { forall i :: 0 <= i < |s| ==> '0' <= s[i] <= '9' }

  /** The digits after the front, and what stands behind them, are counted on. */
  lemma {:induction false} DigitsThen(s: string, rest: string, seenDot: bool)
    requires IsDigits(s)
    ensures NumberLength(s + rest, seenDot) == |s| + NumberLength(rest, seenDot)
    decreases |s|
  {
    if s == "" {
      assert s + rest == rest;
    } else {
      assert (s + rest)[0] == s[0] && (s + rest)[1..] == s[1..] + rest;
      DigitsThen(s[1..], rest, seenDot);
    }
  }

  /** What follows neither goes on with the number, which has had its point or not, nor starts an exponent. */
  predicate EndsNumber(rest: string, seenDot: bool) {
    rest == "" || (!('0' <= rest[0] <= '9') && (rest[0] != '.' || seenDot) && rest[0] != 'e' && rest[0] != 'E')
  }

  lemma ExponentThen(e: char, sign: string, s: string, rest: string, seenDot: bool)
    requires sign == "" || sign == "+" || sign == "-"
    requires s != "" && IsDigits(s) && (e == 'e' || e == 'E') && EndsNumber(rest, seenDot)
    ensures NumberLength([e] + (sign + (s + rest)), seenDot) == 1 + |sign| + |s|
  {
    var u := s + rest;
    NoMore(rest, seenDot);
    DigitsThen(s, rest, seenDot);
    assert u[0] == s[0];
    hide NumberLength, StartsExponent, EndsNumber;
    if sign == "" {
      assert sign + u == u;
      BareExponent(e, u, seenDot);
    } else {
      assert sign == [sign[0]];
      SignedExponent(e, sign[0], u, seenDot);
    }
  }

  lemma BareExponent(e: char, u: string, seenDot: bool)
    requires (e == 'e' || e == 'E') && u != "" && '0' <= u[0] <= '9'
    ensures NumberLength([e] + u, seenDot) == 1 + NumberLength(u, seenDot)
  {
    var t := [e] + u;
    assert t[1] == u[0] && t[2..] == u[1..];
  }

  lemma SignedExponent(e: char, sign: char, u: string, seenDot: bool)
    requires (e == 'e' || e == 'E') && (sign == '+' || sign == '-') && u != "" && '0' <= u[0] <= '9'
    ensures NumberLength([e] + ([sign] + u), seenDot) == 2 + NumberLength(u, seenDot)
  {
    var t := [e] + ([sign] + u);
    assert t[1] == sign && t[2] == u[0] && t[2..] == u;
  }

  lemma NoMore(rest: string, seenDot: bool)
    requires EndsNumber(rest, seenDot)
    ensures NumberLength(rest, seenDot) == 0
  {}

  /** A numeral: digits, a fraction with a point or none, with a digit in one of them, and an exponent with
      a sign or without or none. */
  predicate IsNumeral(whole: string, fraction: string, exponent: string, sign: string, power: string) {
    && IsDigits(whole) && (whole != "" || |fraction| > 1)
    && (fraction == "" || (fraction[0] == '.' && IsDigits(fraction[1..])))
    && ((exponent == "" && sign == "" && power == "")
        || ((exponent == "e" || exponent == "E") && (sign == "" || sign == "+" || sign == "-")
            && power != "" && IsDigits(power)))
  }

  lemma NumeralLength(whole: string, fraction: string, exponent: string, sign: string, power: string, rest: string)
    requires IsNumeral(whole, fraction, exponent, sign, power) && EndsNumber(rest, fraction != "")
    ensures var text := whole + (fraction + (exponent + (sign + (power + rest))));
      NumberLength(text, false) == |text| - |rest| > 0 && StartsNumber(text)
  {
    var tail := exponent + (sign + (power + rest));
    var text := whole + (fraction + tail);
    forall seen | seen || fraction == "" ensures NumberLength(tail, seen) == |tail| - |rest| {
      if exponent != "" {
        ExponentThen(exponent[0], sign, power, rest, seen);
        assert exponent == [exponent[0]];
      } else {
        assert tail == rest;
      }
    }
    DigitsThen(whole, fraction + tail, false);
    if fraction == "" {
      assert fraction + tail == tail;
    } else {
      assert (fraction + tail)[0] == '.' && (fraction + tail)[1..] == fraction[1..] + tail;
      DigitsThen(fraction[1..], tail, true);
    }
    assert whole != "" ==> text[0] == whole[0];
    assert whole == "" ==> text == fraction + tail && text[0] == '.' && text[1] == fraction[1];
  }

  lemma Regroup(a: string, b: string, c: string, d: string, e: string, rest: string)
    ensures a + b + c + d + e + rest == a + (b + (c + (d + (e + rest))))
  {}

  /** Such a numeral is one token, the number that `parseFloat` makes of it, and the text goes on behind it. */
  lemma Numerals<N>(A: Arithmetic<N>, whole: string, fraction: string, exponent: string, sign: string,
    power: string, rest: string)
    requires IsNumeral(whole, fraction, exponent, sign, power) && EndsNumber(rest, fraction != "")
    ensures var (numeral, others) := (whole + fraction + exponent + sign + power, Lex(A, rest));
      Lex(A, numeral + rest) ==
        if A.isNaN(A.literal(numeral)) then Err(SyntaxError)
        else if others.Err? then others
        else Ok([Number(A.literal(numeral))] + others.value)
  {
    var numeral := whole + fraction + exponent + sign + power;
    NumeralLength(whole, fraction, exponent, sign, power, rest);
    Regroup(whole, fraction, exponent, sign, power, rest);
    hide NumberLength, StartsNumber, Lex, IsNumeral, EndsNumber;
    NumeralToken(A, numeral, rest);
  }

  lemma NumeralToken<N>(A: Arithmetic<N>, numeral: string, rest: string)
    requires NumberLength(numeral + rest, false) == |numeral| > 0 && StartsNumber(numeral + rest)
    ensures Lex(A, numeral + rest) ==
      if A.isNaN(A.literal(numeral)) then Err(SyntaxError)
      else if Lex(A, rest).Err? then Lex(A, rest)
      else Ok([Number(A.literal(numeral))] + Lex(A, rest).value)
  {
    var text, n := numeral + rest, |numeral|;
    assert text[0..] == text && text[..n] == numeral && text[0..n] == numeral && text[n..] == rest;
    LexStep(A, text, 0);
    hide NumberLength, NameLength;
  }

  /** For example. */
  lemma SmallNumber<N>(A: Arithmetic<N>)
    requires !A.isNaN(A.literal("1e-5"))
    ensures Lex(A, "1e-5") == Ok([Number(A.literal("1e-5"))])
  {
    Numerals(A, "1", "", "e", "-", "5", "");
    LexEnd(A, "");
    assert "1" + "" + "e" + "-" + "5" == "1e-5" && "1e-5" + "" == "1e-5";
    assert [Number(A.literal("1e-5"))] + [] == [Number(A.literal("1e-5"))];
    hide Lex;
  }

  /** A name in any case is the token of its lower-case letters. */
  lemma NamesFold<N>(A: Arithmetic<N>, s: string, lower: string)
    requires s != "" && !('0' <= s[0] <= '9') && |lower| == |s|
    requires forall i :: 0 <= i < |s| ==>
      if 'A' <= s[i] <= 'Z' then lower[i] as int == s[i] as int + 32
      else lower[i] == s[i] && ('a' <= s[i] <= 'z' || '0' <= s[i] <= '9' || s[i] == '_')
    ensures Lex(A, s) == Ok([Name(lower)])
  {
    assert forall i :: 0 <= i < |s| ==> IsNamePart(s[i]);
    assert s + "" == s;
    NameEnds(s, "");
    assert Lowered(s) == lower;
    assert s[0..] == s && s[..|s|] == s && s[0..|s|] == s && s[|s|..] == "";
    LexStep(A, s, 0);
    LexEnd(A, "");
    assert !StartsNumber(s) && !IsSpace(s[0]);
    var name: seq<Token<N>> := [Name(lower)];
    assert name + [] == name;
    hide NumberLength, NameLength;
  }

  /** Blanks are skipped, each operator is a symbol of its own, and nothing else is read. */
  lemma OtherCharacters<N>(A: Arithmetic<N>, c: char, s: string)
    ensures c in " \t\n\r" ==> Lex(A, [c] + s) == Lex(A, s)
    ensures c in "+-*/%^()," ==>
      Lex(A, [c] + s) == if Lex(A, s).Ok? then Ok([Symbol(c)] + Lex(A, s).value) else Lex(A, s)
    ensures c !in " \t\n\r+-*/%^(),._" && !('0' <= c <= '9') && !('a' <= c <= 'z') && !('A' <= c <= 'Z') ==>
      Lex(A, [c] + s) == Err(SyntaxError)
    ensures c == '.' && (s == "" || !('0' <= s[0] <= '9')) ==> Lex(A, [c] + s) == Err(SyntaxError)
  {
    var t := [c] + s;
    assert t[0..] == t && t[1..] == s;
    LexStep(A, t, 0);
    hide NumberLength, NameLength;
  }
}
