/**
 JSON Patch, as `patch_inplace` applies it and `diff` produces it. A JSON pointer is the sequence of
 its unescaped reference tokens; an error is the number of the exception thrown.
 */
module JsonPatch {
  import opened Decimals

  /** A JSON value with one kind of number. Objects are ordered by key in the source; the order only
      decides in which order `diff` visits the keys. */
  datatype Json =
    | Null
    | Bool(b: bool)
    | Number(n: int)
    | String(s: string)
    | Array(items: seq<Json>)
    | Object(members: map<string, Json>)

  datatype Result<T> = Ok(value: T) | Err(code: nat)

  type Pointer = seq<string>

  // exceptions thrown by the library; ASSERTION is a failed JSON_ASSERT
  const LEADING_ZERO := 106
  const NOT_A_NUMBER := 109
  const INDEX_RANGE := 401
  const INDEX_DASH := 402
  const KEY_MISSING := 403
  const UNRESOLVED := 404
  const NO_PARENT := 405
  const TEST_FAILED := 501
  const ASSERTION := 1

  // ------------------------------------------------------------------ pointers

  /** `array_index`, without the overflow of `size_type`. */
  function ArrayIndex(token: string): Result<nat> {
    if |token| > 1 && token[0] == '0' then Err(LEADING_ZERO)
    else if |token| > 1 && !('1' <= token[0] <= '9') then Err(NOT_A_NUMBER)
    else if token == "" || !AllDigits(token) then Err(UNRESOLVED)
    else Ok(ValueOf(token))
  }

  lemma IndexRoundTrip(i: nat)
    ensures ArrayIndex(Digits(i)) == Ok(i) && Digits(i) != "-"
  {
    DigitsRoundTrip(i);
    if |Digits(i)| > 1 { assert IsDigit(Digits(i)[0]); }
    assert !AllDigits("-") by { assert !IsDigit("-"[0]); }
  }

  /** An array element has one token only. */
  lemma IndexIsUnique(token: string)
    requires ArrayIndex(token).Ok?
    ensures token == Digits(ArrayIndex(token).value)
  {
    ValueRoundTrip(token);
  }

  /** One step of `get_checked`. */
  function Child(j: Json, token: string): Result<Json> {
    match j
    case Object(m) => if token in m then Ok(m[token]) else Err(KEY_MISSING)
    case Array(xs) =>
      if token == "-" then Err(INDEX_DASH)
      else
        var i := ArrayIndex(token);
        if i.Err? then Err(i.code) else if i.value < |xs| then Ok(xs[i.value]) else Err(INDEX_RANGE)
    case _ => Err(UNRESOLVED)
  }

  /** `at`: the value a pointer leads to. */
  function At(j: Json, p: Pointer): Result<Json>
    decreases |p|
  {
    if p == [] then Ok(j)
    else
      var c := Child(j, p[0]);
      if c.Err? then c else At(c.value, p[1..])
  }

  /** The value with one child assigned through a reference. */
  function SetChild(j: Json, token: string, v: Json): Json
    requires Child(j, token).Ok?
  {
    match j
    case Object(m) => Object(m[token := v])
    case Array(xs) => Array(xs[ArrayIndex(token).value := v])
  }

  /** The value with what `p` leads to assigned through a reference. */
  function Put(j: Json, p: Pointer, v: Json): Json
    requires At(j, p).Ok?
    decreases |p|
  {
    if p == [] then v else SetChild(j, p[0], Put(Child(j, p[0]).value, p[1..], v))
  }

  // ---------------------------------------------------------------- operations

  datatype Op =
    | Add(path: Pointer, value: Json)
    | Remove(path: Pointer)
    | Replace(path: Pointer, value: Json)
    | Move(from: Pointer, path: Pointer)
    | Copy(from: Pointer, path: Pointer)
    | Test(path: Pointer, value: Json)

  /** What `operation_add` does to the parent value. */
  function AddTo(parent: Json, token: string, v: Json): Result<Json> {
    match parent
    case Null => Ok(Object(map[token := v]))
    case Object(m) => Ok(Object(m[token := v]))
    case Array(xs) =>
      if token == "-" then Ok(Array(xs + [v]))
      else
        var i := ArrayIndex(token);
        if i.Err? then Err(i.code)
        else if i.value > |xs| then Err(INDEX_RANGE)
        else Ok(Array(xs[..i.value] + [v] + xs[i.value..]))
    case _ => Err(ASSERTION)
  }

  /** What `operation_remove` does to the parent value; a primitive parent is left alone. */
  function RemoveFrom(parent: Json, token: string): Result<Json> {
    match parent
    case Object(m) => if token in m then Ok(Object(m - {token})) else Err(KEY_MISSING)
    case Array(xs) =>
      var i := ArrayIndex(token);
      if i.Err? then Err(i.code)
      else if i.value >= |xs| then Err(INDEX_RANGE)
      else Ok(Array(xs[..i.value] + xs[i.value + 1..]))
    case _ => Ok(parent)
  }

  function OperationAdd(doc: Json, p: Pointer, v: Json): Result<Json> {
    if p == [] then Ok(v)
    else if |p| > 1 && At(doc, p[..1]).Err? then Err(At(doc, p[..1]).code)
    else
      var front, last := p[..|p| - 1], p[|p| - 1];
      var parent := At(doc, front);
      if parent.Err? then Err(parent.code)
      else
        var new' := AddTo(parent.value, last, v);
        if new'.Err? then Err(new'.code) else Ok(Put(doc, front, new'.value))
  }

  function OperationRemove(doc: Json, p: Pointer): Result<Json> {
    if p == [] then Err(NO_PARENT)
    else
      var front, last := p[..|p| - 1], p[|p| - 1];
      var parent := At(doc, front);
      if parent.Err? then Err(parent.code)
      else
        var new' := RemoveFrom(parent.value, last);
        if new'.Err? then Err(new'.code) else Ok(Put(doc, front, new'.value))
  }

  /** The document after an operation, and the error it threw if it did. An operation that throws may
      still have changed the document: a move whose target fails has removed its source. */
  datatype Outcome = Outcome(doc: Json, error: Result<()>)

  function Finish(doc: Json, r: Result<Json>): Outcome {
    if r.Ok? then Outcome(r.value, Ok(())) else Outcome(doc, Err(r.code))
  }

  function Apply(doc: Json, op: Op): Outcome {
    match op
    case Add(p, v) => Finish(doc, OperationAdd(doc, p, v))
    case Remove(p) => Finish(doc, OperationRemove(doc, p))
    case Replace(p, v) =>
      var r := At(doc, p);
      if r.Ok? then Outcome(Put(doc, p, v), Ok(())) else Outcome(doc, Err(r.code))
    case Move(from, p) =>
      var v := At(doc, from);
      if v.Err? then Outcome(doc, Err(v.code))
      else
        var removed := OperationRemove(doc, from);
        if removed.Err? then Outcome(doc, Err(removed.code))
        else Finish(removed.value, OperationAdd(removed.value, p, v.value))
    case Copy(from, p) =>
      var v := At(doc, from);
      if v.Err? then Outcome(doc, Err(v.code)) else Finish(doc, OperationAdd(doc, p, v.value))
    case Test(p, v) =>
      var r := At(doc, p);
      // only out_of_range exceptions are caught
      if r.Err? && (r.code == LEADING_ZERO || r.code == NOT_A_NUMBER) then Outcome(doc, Err(r.code))
      else Outcome(doc, if r == Ok(v) then Ok(()) else Err(TEST_FAILED))
  }

  /** The whole patch: operations in order, up to the first that throws. */
  function ApplyAll(doc: Json, ops: seq<Op>): Outcome
    decreases |ops|
  {
    if ops == [] then Outcome(doc, Ok(()))
    else
      var first := Apply(doc, ops[0]);
      if first.error.Err? then first else ApplyAll(first.doc, ops[1..])
  }

  predicate Patches(doc: Json, ops: seq<Op>, result: Json) { ApplyAll(doc, ops) == Outcome(result, Ok(())) }

  /** A document that patches are applied to in place. */
  class Document {
    var value: Json

    constructor (j: Json)
      ensures value == j
    {
      value := j;
    }

    /** Apply the operations one after another. When one throws, the document keeps the effect of
        those before it. */
    method PatchInPlace(ops: seq<Op>) returns (thrown: Result<()>)
      modifies this
      ensures Outcome(value, thrown) == ApplyAll(old(value), ops)
    {
      var i := 0;
      thrown := Ok(());
      assert ops[0..] == ops;
      while i < |ops|
        invariant 0 <= i <= |ops| && thrown == Ok(())
        invariant ApplyAll(value, ops[i..]) == ApplyAll(old(value), ops)
      {
        assert ops[i..][1..] == ops[i + 1..];
        var o := Apply(value, ops[i]);
        value := o.doc;
        if o.error.Err? {
          return o.error;
        }
        i := i + 1;
      }
    }
  }
}
