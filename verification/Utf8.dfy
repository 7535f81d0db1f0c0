/**
 The table-driven UTF-8 decoder behind the message log. Bytes and code points are naturals; the mask
 `(0xFF >> type) & byte` keeps the low 8 - type bits, `byte & 0x3F` the low six, and the `|` joins bits
 that do not overlap, so each is written as a remainder or a sum. Code points wrap at 32 bits.
 */
module Utf8 {
  import opened Characters

  // ------------------------------------------------------------------------ tables

  function Times(n: nat, v: nat): (r: seq<nat>)
    ensures |r| == n && forall i :: 0 <= i < n ==> r[i] == v
  {
    seq(n, _ => v)
  }

  /** `utf8d[0..256]`: the class of a byte. */
  const CLASSES: seq<nat> :=
    ASCII + CONTINUATIONS + LEADS

  const ASCII: seq<nat> := Times(128, 0)                                            // 00..7F
  const CONTINUATIONS: seq<nat> := Times(16, 1) + Times(16, 9) + Times(32, 7)        // 80..BF
  const LEADS: seq<nat> :=
    Times(2, 8) + Times(30, 2)                                                      // C0..DF
    + (Times(1, 10) + Times(12, 3) + Times(1, 4) + Times(2, 3))                     // E0..EF
    + (Times(1, 11) + Times(3, 6) + Times(1, 5) + Times(11, 8))                     // F0..FF

  /** `utf8d[256..400]`: the next state, one row of sixteen classes for each state. */
  const ROWS: seq<nat> := (S0 + S1 + S2) + (S3 + S4 + S5) + (S6 + S7 + S8)

  const S0: seq<nat> := [0, 1, 2, 3, 5, 8, 7, 1, 1, 1, 4, 6, 1, 1, 1, 1]
  const S1: seq<nat> := [1, 1, 1, 1, 1, 1, 1, 1, 1, 1, 1, 1, 1, 1, 1, 1]
  const S2: seq<nat> := [1, 0, 1, 1, 1, 1, 1, 0, 1, 0, 1, 1, 1, 1, 1, 1]
  const S3: seq<nat> := [1, 2, 1, 1, 1, 1, 1, 2, 1, 2, 1, 1, 1, 1, 1, 1]
  const S4: seq<nat> := [1, 1, 1, 1, 1, 1, 1, 2, 1, 1, 1, 1, 1, 1, 1, 1]
  const S5: seq<nat> := [1, 2, 1, 1, 1, 1, 1, 1, 1, 2, 1, 1, 1, 1, 1, 1]
  const S6: seq<nat> := [1, 1, 1, 1, 1, 1, 1, 3, 1, 3, 1, 1, 1, 1, 1, 1]
  const S7: seq<nat> := [1, 3, 1, 1, 1, 1, 1, 3, 1, 3, 1, 1, 1, 1, 1, 1]
  const S8: seq<nat> := [1, 3, 1, 1, 1, 1, 1, 1, 1, 1, 1, 1, 1, 1, 1, 1]

  const UTF8D: seq<nat> := CLASSES + ROWS

  /** What the table says a byte's class is. */
  function Class(b: Byte): nat {
    if b < 0x80 then 0 else if b < 0x90 then 1 else if b < 0xA0 then 9 else if b < 0xC0 then 7
    else if b < 0xC2 then 8 else if b < 0xE0 then 2
    else if b == 0xE0 then 10 else if b == 0xED then 4 else if b < 0xF0 then 3
    else if b == 0xF0 then 11 else if b < 0xF4 then 6 else if b == 0xF4 then 5 else 8
  }

  predicate IsTail(b: Byte) { 0x80 <= b < 0xC0 }

  /** What the table says the next state is: 0 accepts, 1 is the error, 2 and 3 want one and two more
      tails, 4 to 8 want a restricted tail first. */
  function Target(state: nat, b: Byte): nat {
    match state
    case 0 =>
      if b < 0x80 then 0 else if b < 0xC2 then 1 else if b < 0xE0 then 2
      else if b == 0xE0 then 4 else if b == 0xED then 5 else if b < 0xF0 then 3
      else if b == 0xF0 then 6 else if b < 0xF4 then 7 else if b == 0xF4 then 8 else 1
    case 2 => if IsTail(b) then 0 else 1
    case 3 => if IsTail(b) then 2 else 1
    case 4 => if 0xA0 <= b < 0xC0 then 2 else 1
    case 5 => if 0x80 <= b < 0xA0 then 2 else 1
    case 6 => if 0x90 <= b < 0xC0 then 3 else 1
    case 7 => if IsTail(b) then 3 else 1
    case 8 => if 0x80 <= b < 0x90 then 3 else 1
    case _ => 1
  }

  lemma ClassIs(b: Byte)
    ensures |UTF8D| == 400 && UTF8D[b] == Class(b)
  {}

  function Row(state: nat): seq<nat>
    requires state < 9
  {
    match state
    case 0 => S0 case 1 => S1 case 2 => S2 case 3 => S3 case 4 => S4
    case 5 => S5 case 6 => S6 case 7 => S7 case 8 => S8
  }

  /** Three blocks of n, one after the other. */
  lemma Block(a: seq<nat>, b: seq<nat>, c: seq<nat>, n: nat, i: nat)
    requires |a| == |b| == |c| == n && i < 3 * n
    ensures |a + b + c| == 3 * n
    ensures (a + b + c)[i] == if i < n then a[i] else if i < 2 * n then b[i - n] else c[i - 2 * n]
  {}

  lemma Nine(pre: seq<nat>, a: seq<nat>, b: seq<nat>, c: seq<nat>, state: nat, k: nat)
    requires |pre| == 256 && |a| == |b| == |c| == 48 && state < 9 && k < 16
    ensures |pre + (a + b + c)| == 400
    ensures (pre + (a + b + c))[256 + state * 16 + k] ==
      if state < 3 then a[state * 16 + k]
      else if state < 6 then b[(state - 3) * 16 + k]
      else c[(state - 6) * 16 + k]
  {}

  lemma RowIs(state: nat, k: nat)
    requires state < 9 && k < 16
    ensures |UTF8D| == 400 && |Row(state)| == 16 && UTF8D[256 + state * 16 + k] == Row(state)[k]
  {
    hide CLASSES, S0, S1, S2, S3, S4, S5, S6, S7, S8;
    RowLengths();
    Nine(CLASSES, S0 + S1 + S2, S3 + S4 + S5, S6 + S7 + S8, state, k);
    var i := state % 3 * 16 + k;
    if state < 3 { Block(S0, S1, S2, 16, i); }
    else if state < 6 { Block(S3, S4, S5, 16, i); }
    else { Block(S6, S7, S8, 16, i); }
  }

  lemma RowLengths()
    ensures |S0| == |S1| == |S2| == |S3| == |S4| == |S5| == |S6| == |S7| == |S8| == 16 && |CLASSES| == 256
  {}

  /** The table holds what `Target` says. */
  lemma TableIs(state: nat, b: Byte)
    requires state < 9
    ensures |UTF8D| == 400 && UTF8D[b] < 16 && UTF8D[256 + state * 16 + UTF8D[b]] == Target(state, b)
  {
    ClassIs(b);
    RowIs(state, Class(b));
    TargetIs(state, b);
  }

  lemma TargetIs(state: nat, b: Byte)
    requires state < 9
    ensures |Row(state)| == 16 && Row(state)[Class(b)] == Target(state, b)
  {}

  // ------------------------------------------------------- section 4 of RFC 3629

  /** UTF8-1 to UTF8-4: the byte sequence of one character. */
  predicate IsSequence(s: seq<Byte>) {
    match |s|
    case 1 => s[0] < 0x80
    case 2 => 0xC2 <= s[0] < 0xE0 && IsTail(s[1])
    case 3 =>
      && IsTail(s[2])
      && if s[0] == 0xE0 then 0xA0 <= s[1] < 0xC0
         else if s[0] == 0xED then 0x80 <= s[1] < 0xA0
         else 0xE1 <= s[0] < 0xF0 && IsTail(s[1])
    case 4 =>
      && IsTail(s[2]) && IsTail(s[3])
      && if s[0] == 0xF0 then 0x90 <= s[1] < 0xC0
         else if s[0] == 0xF4 then 0x80 <= s[1] < 0x90
         else 0xF1 <= s[0] < 0xF4 && IsTail(s[1])
    case _ => false
  }

  /** The code point a sequence encodes, by the bit layout of section 3. */
  function Scalar(s: seq<Byte>): nat
    requires IsSequence(s)
  {
    match |s|
    case 1 => s[0]
    case 2 => Lead(s[0], 0xC0) * 64 + Low(s[1])
    case 3 => Lead(s[0], 0xE0) * 4096 + Low(s[1]) * 64 + Low(s[2])
    case _ => Lead(s[0], 0xF0) * 262144 + Low(s[1]) * 4096 + Low(s[2]) * 64 + Low(s[3])
  }

  function Low(b: Byte): nat
    requires IsTail(b)
  {
    b as int - 0x80
  }

  function Lead(b: Byte, mark: nat): nat
    requires mark <= b
  {
    b as int - mark
  }

  predicate IsScalar(u: nat) { u < 0xD800 || 0xE000 <= u <= 0x10FFFF }

  /** Section 3's encoding of a code point. */
  function Encode(u: nat): seq<Byte>
    requires IsScalar(u)
  {
    if u < 0x80 then [u]
    else if u < 0x800 then [0xC0 + u / 64, 0x80 + u % 64]
    else if u < 0x10000 then [0xE0 + u / 4096, 0x80 + u / 64 % 64, 0x80 + u % 64]
    else [0xF0 + u / 262144, 0x80 + u / 4096 % 64, 0x80 + u / 64 % 64, 0x80 + u % 64]
  }

  /** The sequences of section 4 are the encodings of scalar values, one for each. */
  lemma EncodeThenScalar(u: nat)
    requires IsScalar(u)
    ensures IsSequence(Encode(u)) && Scalar(Encode(u)) == u
  {
    assert u / 64 / 64 == u / 4096 && u / 4096 / 64 == u / 262144;
  }

  lemma ScalarThenEncode(s: seq<Byte>)
    requires IsSequence(s)
    ensures IsScalar(Scalar(s)) && Encode(Scalar(s)) == s
  {
    if |s| == 2 {
      Unpack(Lead(s[0], 0xC0), Low(s[1]));
    } else if |s| == 3 {
      Unpack3(Lead(s[0], 0xE0), Low(s[1]), Low(s[2]));
    } else if |s| == 4 {
      Unpack4(Lead(s[0], 0xF0), Low(s[1]), Low(s[2]), Low(s[3]));
    }
  }

  lemma Unpack(x: nat, y: nat)
    requires y < 64
    ensures (x * 64 + y) / 64 == x && (x * 64 + y) % 64 == y
  {}

  lemma Unpack3(x: nat, y: nat, z: nat)
    requires y < 64 && z < 64
    ensures var u := x * 4096 + y * 64 + z; u % 64 == z && u / 64 == x * 64 + y && u / 64 % 64 == y && u / 4096 == x
  {
    Unpack(x * 64 + y, z);
    Unpack(x, y);
  }

  lemma Unpack4(w: nat, x: nat, y: nat, z: nat)
    requires x < 64 && y < 64 && z < 64
    ensures var u := w * 262144 + x * 4096 + y * 64 + z;
      u % 64 == z && u / 64 % 64 == y && u / 4096 % 64 == x && u / 262144 == w
  {
    Unpack3(w * 64 + x, y, z);
    Unpack3(w, x, y);
  }

  /** UTF8-octets: any number of sequences, one after the other, here with the code points they encode. */
  ghost predicate Reads(s: seq<Byte>, points: seq<nat>)
    decreases |points|
  {
    if points == [] then s == []
    else exists n :: 0 < n <= |s| && IsSequence(s[..n]) && Scalar(s[..n]) == points[0] && Reads(s[n..], points[1..])
  }

  ghost predicate IsUtf8(s: seq<Byte>) { exists points :: Reads(s, points) }

  // ------------------------------------------------------------------------ decoding

  const WIDTH := 0x1_0000_0000

  /** The low 8 - type bits of a byte: `(0xFF >> type) & byte`. */
  function Masked(b: Byte, class_: nat): nat {
    match class_
    case 0 => b
    case 1 => b % 128
    case 2 => b % 64
    case 3 => b % 32
    case 4 => b % 16
    case 5 => b % 8
    case 6 => b % 4
    case 7 => b % 2
    case _ => 0
  }

  function Power2(n: nat): (p: nat)
    ensures p > 0
  {
    if n == 0 then 1 else 2 * Power2(n - 1)
  }

  /** What is masked is the remainder by a power of two, and nothing is left from class 8 on. */
  lemma MaskedBits(b: Byte, class_: nat)
    ensures Masked(b, class_) == if class_ <= 8 then b % Power2(8 - class_) else 0
  {
    assert Power2(1) == 2 && Power2(2) == 4 && Power2(3) == 8 && Power2(4) == 16;
    assert Power2(5) == 32 && Power2(6) == 64 && Power2(7) == 128 && Power2(8) == 256;
  }

  /** A code point of 32 bits stays one, with the six bits of the byte at its end. */
  lemma FoldedFits(state: nat, codep: nat, b: Byte)
    ensures codep < 0x1_0000_0000 ==> Folded(state, codep, b) < 0x1_0000_0000
    ensures state != 0 ==> Folded(state, codep, b) % 64 == b % 64
    ensures state != 0 && codep < 0x400_0000 ==> Folded(state, codep, b) / 64 == codep
  {
    var q := codep / 0x400_0000;
    var low := codep % 0x400_0000;
    assert codep * 64 == q * 0x1_0000_0000 + low * 64;
    assert (codep * 64) % 0x1_0000_0000 == low * 64;
  }

  method DecodeUtf8(state: nat, codep: nat, b: Byte) returns (state': nat, codep': nat)
    requires state < 9
    ensures state' == Target(state, b) && state' < 9
    ensures codep' == Folded(state, codep, b)
    ensures codep < 0x1_0000_0000 ==> codep' < 0x1_0000_0000
  {
    FoldedFits(state, codep, b);
    hide UTF8D, Class, Target, Row;
    TableIs(state, b);
    ClassIs(b);
    var class_ := UTF8D[b];
    codep' := if state != 0 then b % 64 + (codep * 64) % WIDTH else Masked(b, class_);
    state' := UTF8D[256 + state * 16 + class_];
    TargetBound(state, b);
  }

  lemma TargetBound(state: nat, b: Byte)
    ensures Target(state, b) < 9
  {}

  /** The accumulated code point after one more byte. */
  function Folded(state: nat, codep: nat, b: Byte): nat {
    if state != 0 then b % 64 + (codep * 64) % WIDTH else Masked(b, Class(b))
  }

  /** The state after a byte string. */
  function Final(state: nat, s: seq<Byte>): nat
    decreases |s|
  {
    if s == [] then state else Final(Target(state, s[0]), s[1..])
  }

  /** The code points held at each return to the accepting state. */
  function Points(state: nat, codep: nat, s: seq<Byte>): seq<nat>
    decreases |s|
  {
    if s == [] then []
    else
      var state', codep' := Target(state, s[0]), Folded(state, codep, s[0]);
      (if state' == 0 then [codep'] else []) + Points(state', codep', s[1..])
  }

  lemma Advance(state: nat, codep: nat, b: Byte, rest: seq<Byte>)
    ensures Final(state, [b] + rest) == Final(Target(state, b), rest)
    ensures var state', codep' := Target(state, b), Folded(state, codep, b);
      Points(state, codep, [b] + rest) == (if state' == 0 then [codep'] else []) + Points(state', codep', rest)
  {}

  lemma LeadBits(b: Byte, codep: nat)
    ensures b < 0x80 ==> Folded(0, codep, b) == b
    ensures 0xC2 <= b < 0xE0 ==> Folded(0, codep, b) == Lead(b, 0xC0)
    ensures 0xE0 <= b < 0xF0 ==> Folded(0, codep, b) == Lead(b, 0xE0)
    ensures 0xF0 <= b < 0xF5 ==> Folded(0, codep, b) == Lead(b, 0xF0)
  {}

  lemma TailBits(state: nat, codep: nat, b: Byte)
    requires state != 0 && IsTail(b) && codep < 0x400_0000
    ensures Folded(state, codep, b) == codep * 64 + Low(b)
  {}

  /** The bytes that take a state back to the accepting one. */
  predicate Completes(state: nat, t: seq<Byte>) {
    match state
    case 0 => t == []
    case 2 => |t| == 1 && IsTail(t[0])
    case 3 => |t| == 2 && IsTail(t[0]) && IsTail(t[1])
    case 4 => |t| == 2 && 0xA0 <= t[0] < 0xC0 && IsTail(t[1])
    case 5 => |t| == 2 && 0x80 <= t[0] < 0xA0 && IsTail(t[1])
    case 6 => |t| == 3 && 0x90 <= t[0] < 0xC0 && IsTail(t[1]) && IsTail(t[2])
    case 7 => |t| == 3 && IsTail(t[0]) && IsTail(t[1]) && IsTail(t[2])
    case 8 => |t| == 3 && 0x80 <= t[0] < 0x90 && IsTail(t[1]) && IsTail(t[2])
    case _ => false
  }

  /** A code point with the bits of more tails. */
  function Packed(codep: nat, t: seq<Byte>): nat
    requires forall i :: 0 <= i < |t| ==> IsTail(t[i])
    decreases |t|
  {
    if t == [] then codep else Packed(codep * 64 + Low(t[0]), t[1..])
  }

  lemma CompletesAreTails(state: nat, t: seq<Byte>)
    requires Completes(state, t)
    ensures |t| <= 3 && forall i :: 0 <= i < |t| ==> IsTail(t[i])
  {}

  lemma CompletesStep(state: nat, b: Byte, t: seq<Byte>)
    requires state != 0
    ensures Completes(state, [b] + t) <==> Completes(Target(state, b), t)
  {}

  lemma SequenceCompletes(b: Byte, t: seq<Byte>)
    ensures IsSequence([b] + t) <==> Completes(Target(0, b), t)
  {}
  /** From the accepting state, a sequence leads back to it for the first time at its end, and the code
      point held there is the one it encodes. */
  lemma SequenceRuns(t: seq<Byte>, codep: nat, rest: seq<Byte>)
    requires IsSequence(t)
    ensures Final(0, t + rest) == Final(0, rest)
    ensures Points(0, codep, t + rest) == [Scalar(t)] + Points(0, Scalar(t), rest)
  {
    hide Final, Points, Folded, Packed, Completes;
    var b, tail := t[0], t[1..];
    assert t == [b] + tail && t + rest == [b] + (tail + rest);
    LeadBits(b, codep);
    Advance(0, codep, b, tail + rest);
    SequenceCompletes(b, tail);
    ScalarIsPacked(t);
    if |t| == 1 {
      assert tail + rest == rest;
    } else {
      TailRuns(Target(0, b), Folded(0, codep, b), tail, rest);
    }
  }

  lemma ScalarIsPacked(t: seq<Byte>)
    requires IsSequence(t)
    ensures forall i :: 0 <= i < |t| - 1 ==> IsTail(t[1..][i])
    ensures |t| == 1 ==> Scalar(t) == t[0]
    ensures |t| == 2 ==> Scalar(t) == Packed(Lead(t[0], 0xC0), t[1..])
    ensures |t| == 3 ==> Scalar(t) == Packed(Lead(t[0], 0xE0), t[1..])
    ensures |t| == 4 ==> Scalar(t) == Packed(Lead(t[0], 0xF0), t[1..])
  {
    if |t| == 2 { PackedOne(Lead(t[0], 0xC0), t[1..]); }
    if |t| == 3 { PackedTwo(Lead(t[0], 0xE0), t[1..]); }
    if |t| == 4 { PackedThree(Lead(t[0], 0xF0), t[1..]); }
    hide Packed;
  }

  lemma PackedOne(c: nat, t: seq<Byte>)
    requires |t| == 1 && IsTail(t[0])
    ensures Packed(c, t) == c * 64 + Low(t[0])
  {}

  lemma PackedTwo(c: nat, t: seq<Byte>)
    requires |t| == 2 && IsTail(t[0]) && IsTail(t[1])
    ensures Packed(c, t) == c * 4096 + Low(t[0]) * 64 + Low(t[1])
  {
    PackedOne(c * 64 + Low(t[0]), t[1..]);
  }

  lemma PackedThree(c: nat, t: seq<Byte>)
    requires |t| == 3 && IsTail(t[0]) && IsTail(t[1]) && IsTail(t[2])
    ensures Packed(c, t) == c * 262144 + Low(t[0]) * 4096 + Low(t[1]) * 64 + Low(t[2])
  {
    PackedTwo(c * 64 + Low(t[0]), t[1..]);
  }

  /** How large a code point may be when so many tails are still to come. */
  function Room(tails: nat): nat {
    if tails >= 3 then 32 else if tails == 2 then 2048 else 131072
  }

  lemma {:induction false} TailRuns(state: nat, codep: nat, t: seq<Byte>, rest: seq<Byte>)
    requires state != 0 && Completes(state, t) && codep < Room(|t|)
    ensures forall i :: 0 <= i < |t| ==> IsTail(t[i])
    ensures Final(state, t + rest) == Final(0, rest)
    ensures Points(state, codep, t + rest) == [Packed(codep, t)] + Points(0, Packed(codep, t), rest)
    decreases |t|
  {
    hide Final, Points, Folded, Target;
    CompletesAreTails(state, t);
    var b, tail := t[0], t[1..];
    assert t == [b] + tail && t + rest == [b] + (tail + rest);
    CompletesStep(state, b, tail);
    hide Completes;
    TailBits(state, codep, b);
    Advance(state, codep, b, tail + rest);
    var state', codep' := Target(state, b), codep * 64 + Low(b);
    if state' == 0 {
      CompletesNothing(tail);
      assert tail + rest == rest;
    } else {
      assert tail != [] by { if tail == [] { NothingCompletes(state'); } }
      TailRuns(state', codep', tail, rest);
    }
  }

  lemma CompletesNothing(t: seq<Byte>)
    requires Completes(0, t)
    ensures t == []
  {}

  lemma NothingCompletes(state: nat)
    requires Completes(state, [])
    ensures state == 0
  {}

  // ---------------------------------------------------------------- the language

  /** The decoder accepts what section 4 derives, and holds the encoded code points on the way. */
  lemma {:induction false} ReadsAreAccepted(s: seq<Byte>, points: seq<nat>, codep: nat)
    requires Reads(s, points)
    ensures Final(0, s) == 0 && Points(0, codep, s) == points
    decreases |points|
  {
    if points != [] {
      var n :| 0 < n <= |s| && IsSequence(s[..n]) && Scalar(s[..n]) == points[0] && Reads(s[n..], points[1..]);
      hide Final, Points, IsSequence, Scalar, Reads;
      assert s == s[..n] + s[n..];
      SequenceRuns(s[..n], codep, s[n..]);
      ReadsAreAccepted(s[n..], points[1..], points[0]);
    }
  }

  lemma {:induction false} ErrorIsFinal(s: seq<Byte>)
    ensures Final(1, s) == 1
    decreases |s|
  {
    if s != [] { ErrorIsFinal(s[1..]); }
  }

  /** If a state is taken back to accepting, a prefix completes it. */
  lemma {:induction false} FirstReturn(state: nat, s: seq<Byte>) returns (n: nat)
    requires Final(state, s) == 0
    ensures n <= |s| && Completes(state, s[..n])
    decreases |s|
  {
    n := 0;
    if state != 0 {
      var m := FirstReturn(Target(state, s[0]), s[1..]);
      CompletesStep(state, s[0], s[1..][..m]);
      n := m + 1;
      assert s[..n] == [s[0]] + s[1..][..m];
    }
  }

  /** What the decoder accepts, section 4 derives. */
  lemma {:induction false} AcceptedReads(s: seq<Byte>, codep: nat)
    requires Final(0, s) == 0
    ensures Reads(s, Points(0, codep, s))
    decreases |s|
  {
    if s != [] {
      var b := s[0];
      var m := FirstReturn(Target(0, b), s[1..]);
      SequenceCompletes(b, s[1..][..m]);
      var n := m + 1;
      assert s[..n] == [b] + s[1..][..m] && s == s[..n] + s[n..];
      hide Final, Points, IsSequence, Completes, Target;
      SequenceRuns(s[..n], codep, s[n..]);
      AcceptedReads(s[n..], Scalar(s[..n]));
      hide Scalar;
      var points := Points(0, codep, s);
      assert points[0] == Scalar(s[..n]) && points[1..] == Points(0, Scalar(s[..n]), s[n..]);
    }
  }

  /** A byte string has at most one reading. */
  lemma ReadingIsUnique(s: seq<Byte>, points: seq<nat>, points': seq<nat>)
    requires Reads(s, points) && Reads(s, points')
    ensures points == points'
  {}

  /** `is_utf8_valid`; `points` are the values of `codepoint` at each return to the accepting state. */
  method IsUtf8Valid(str: seq<Byte>) returns (valid: bool, ghost points: seq<nat>)
    ensures valid <==> IsUtf8(str)
    ensures valid ==> Reads(str, points)
  {
    hide Target, Folded, Reads;
    var codepoint, state := 0, 0;
    points := [];
    assert str[0..] == str;
    for i := 0 to |str|
      invariant state < 9
      invariant Final(0, str) == Final(state, str[i..])
      invariant Points(0, 0, str) == points + Points(state, codepoint, str[i..])
    {
      assert str[i..] == [str[i]] + str[i + 1..];
      Advance(state, codepoint, str[i], str[i + 1..]);
      state, codepoint := DecodeUtf8(state, codepoint, str[i]);
      if state == 0 { points := points + [codepoint]; }
    }
    valid := state == 0;
    assert str[|str|..] == [] && points + [] == points;
    if valid {
      AcceptedReads(str, 0);
    } else {
      forall ps | Reads(str, ps) ensures false { ReadsAreAccepted(str, ps, 0); }
    }
  }
}
