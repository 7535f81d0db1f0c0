/**
 doctest's `wildcmp`: greedy wildcard matching that remembers only the last star. C strings are the
 sequences of their characters, and running off the end of one is reading its NUL.
 */
module Wildcard {
  import opened Characters

  /** One mask character other than a star against one character. */
  predicate Fits(c: char, m: char, caseSensitive: bool) {
    m == '?' || if caseSensitive then m == c else ToLower(m) == ToLower(c)
  }

  /** What a mask means: a star stands for any run of characters, anything else for one that fits. */
  predicate Glob(s: string, mask: string, caseSensitive: bool)
    decreases |mask|
  {
    if mask == "" then s == ""
    else if mask[0] == '*' then exists k | 0 <= k <= |s| :: Glob(s[k..], mask[1..], caseSensitive)
    else s != "" && Fits(s[0], mask[0], caseSensitive) && Glob(s[1..], mask[1..], caseSensitive)
  }

  /** The mask from `m` on matches what is left of `s` at `from` or later. */
  predicate Later(s: string, from: nat, w: string, m: nat, cs: bool)
    requires m <= |w|
  {
    exists k | from <= k <= |s| :: Glob(s[k..], w[m..], cs)
  }

  predicate Starless(w: string, m: nat, j: nat)
    requires m <= j <= |w|
  {
    forall x | m <= x < j :: w[x] != '*'
  }

  /** The mask characters from `m` to `j` fit the characters of `s` from `a` on, one to one. */
  predicate Aligned(s: string, a: nat, w: string, m: nat, j: nat, cs: bool)
    requires m <= j <= |w|
  {
    a + (j - m) <= |s| && forall x | m <= x < j :: Fits(s[a + (x - m)], w[x], cs)
  }

  // --------------------------------------------------------------------- lemmas

  /** A starless stretch of the mask is matched character by character. */
  lemma {:induction false} Stretch(s: string, a: nat, w: string, m: nat, j: nat, cs: bool)
    requires a <= |s| && m <= j <= |w| && Starless(w, m, j)
    ensures Glob(s[a..], w[m..], cs) <==> Aligned(s, a, w, m, j, cs) && Glob(s[a + (j - m)..], w[j..], cs)
    decreases j - m
  {
    if m < j {
      assert w[m..][0] == w[m] && w[m..][1..] == w[m + 1..];
      if a < |s| {
        assert s[a..][0] == s[a] && s[a..][1..] == s[a + 1..];
        Stretch(s, a + 1, w, m + 1, j, cs);
        AlignedStep(s, a, w, m, j, cs);
      }
    }
  }

  lemma AlignedStep(s: string, a: nat, w: string, m: nat, j: nat, cs: bool)
    requires a < |s| && m < j <= |w|
    ensures Aligned(s, a, w, m, j, cs) <==> Fits(s[a], w[m], cs) && Aligned(s, a + 1, w, m + 1, j, cs)
  {}

  lemma AlignedGrows(s: string, a: nat, w: string, m: nat, j: nat, cs: bool)
    requires m <= j < |w| && a + (j - m) < |s|
    requires Aligned(s, a, w, m, j, cs) && Fits(s[a + (j - m)], w[j], cs) && Starless(w, m, j) && w[j] != '*'
    ensures Aligned(s, a, w, m, j + 1, cs) && Starless(w, m, j + 1)
  {}

  /** A star is any later start of the rest of the mask. */
  lemma StarIsLater(s: string, a: nat, w: string, j: nat, cs: bool)
    requires a <= |s| && j < |w| && w[j] == '*'
    ensures Glob(s[a..], w[j..], cs) <==> Later(s, a, w, j + 1, cs)
  {
    assert w[j..][1..] == w[j + 1..];
    assert Glob(s[a..], w[j..], cs) <==> exists k | 0 <= k <= |s[a..]| :: Glob(s[a..][k..], w[j + 1..], cs);
    if Glob(s[a..], w[j..], cs) {
      var k :| 0 <= k <= |s[a..]| && Glob(s[a..][k..], w[j + 1..], cs);
      assert s[a..][k..] == s[a + k..];
    }
    if Later(s, a, w, j + 1, cs) {
      var k :| a <= k <= |s| && Glob(s[k..], w[j + 1..], cs);
      assert s[a..][k - a..] == s[k..];
    }
  }

  /** Why the last star is enough: once the stretch after a star is aligned, another star takes over
      every alternative the earlier one still had. */
  lemma NewStarSubsumes(s: string, a: nat, w: string, m: nat, j: nat, cs: bool)
    requires m <= j < |w| && w[j] == '*' && Starless(w, m, j) && Aligned(s, a, w, m, j, cs)
    ensures Later(s, a, w, m, cs) <==> Later(s, a + (j - m), w, j + 1, cs)
  {
    hide Glob, Aligned, Starless;
    AlignedBound(s, a, w, m, j, cs);
    var i := a + (j - m);
    StarIsLater(s, i, w, j, cs);
    Stretch(s, a, w, m, j, cs);
    if Later(s, a, w, m, cs) {
      var k :| a <= k <= |s| && Glob(s[k..], w[m..], cs);
      Stretch(s, k, w, m, j, cs);
      AlignedBound(s, k, w, m, j, cs);
      StarIsLater(s, k + (j - m), w, j, cs);
    }
  }

  lemma AlignedBound(s: string, a: nat, w: string, m: nat, j: nat, cs: bool)
    requires m <= j <= |w| && Aligned(s, a, w, m, j, cs)
    ensures a + (j - m) <= |s|
  {}

  /** A mismatch rules out the present start and no other. */
  lemma MismatchAdvances(s: string, a: nat, w: string, m: nat, j: nat, cs: bool)
    requires m <= j <= |w| && Starless(w, m, j) && Aligned(s, a, w, m, j, cs) && a + (j - m) < |s|
    requires j == |w| || (w[j] != '*' && !Fits(s[a + (j - m)], w[j], cs))
    ensures Later(s, a, w, m, cs) <==> Later(s, a + 1, w, m, cs)
  {
    var i := a + (j - m);
    assert !Glob(s[i..], w[j..], cs) by {
      if j < |w| { assert w[j..][0] == w[j] && s[i..][0] == s[i]; }
    }
    hide Glob, Aligned, Starless, Fits;
    Stretch(s, a, w, m, j, cs);
  }

  /** At the end of the string only the present start is left. */
  lemma EndOfString(s: string, a: nat, w: string, m: nat, j: nat, cs: bool)
    requires m <= j <= |w| && Starless(w, m, j) && Aligned(s, a, w, m, j, cs) && a + (j - m) == |s|
    ensures Later(s, a, w, m, cs) <==> Glob("", w[j..], cs)
  {
    hide Glob, Aligned, Starless;
    assert s[|s|..] == "";
    Stretch(s, a, w, m, j, cs);
    if Later(s, a, w, m, cs) {
      var k :| a <= k <= |s| && Glob(s[k..], w[m..], cs);
      Stretch(s, k, w, m, j, cs);
      AlignedBound(s, k, w, m, j, cs);
    }
  }

  lemma EmptyString(w: string, j: nat, cs: bool)
    requires j <= |w|
    ensures Glob("", w[j..], cs) <==> j == |w| || (w[j] == '*' && Glob("", w[j + 1..], cs))
  {
    if j < |w| {
      assert w[j..][1..] == w[j + 1..];
      assert ""[0..] == "";
    }
  }

  lemma TrailingStar(s: string, i: nat, w: string, cs: bool)
    requires i <= |s|
    ensures Later(s, i, w, |w|, cs)
  {
    assert Glob(s[|s|..], w[|w|..], cs);
  }

  lemma NothingYet(s: string, a: nat, w: string, m: nat, cs: bool)
    requires a <= |s| && m <= |w|
    ensures Starless(w, m, m) && Aligned(s, a, w, m, m, cs)
  {}

  lemma HeadMatches(s: string, i: nat, w: string, j: nat, cs: bool)
    requires i < |s| && j <= |w| && (j < |w| ==> w[j] != '*')
    ensures Glob(s[i..], w[j..], cs) <==> j < |w| && Fits(s[i], w[j], cs) && Glob(s[i + 1..], w[j + 1..], cs)
  {}

  // ------------------------------------------------------------------- the code

  method Wildcmp(s: string, w: string, caseSensitive: bool) returns (matches: bool)
    ensures matches <==> Glob(s, w, caseSensitive)
  {
    hide Glob, Later, Aligned, Starless, Fits;
    var i, j := 0, 0;
    assert s[0..] == s && w[0..] == w;
    while i < |s| && !(j < |w| && w[j] == '*')
      invariant i <= |s| && j <= |w|
      invariant Glob(s, w, caseSensitive) <==> Glob(s[i..], w[j..], caseSensitive)
    {
      HeadMatches(s, i, w, j, caseSensitive);
      if j == |w| || !Fits(s[i], w[j], caseSensitive) {
        return false;
      }
      i, j := i + 1, j + 1;
    }
    ghost var starred := false;
    var cp, mp := 0, 0;
    while i < |s|
      invariant i <= |s| && j <= |w| && mp <= j
      invariant !starred ==> (i < |s| ==> j < |w| && w[j] == '*')
      invariant !starred ==> (Glob(s, w, caseSensitive) <==> Glob(s[i..], w[j..], caseSensitive))
      invariant starred ==> cp > 0 && i == cp - 1 + (j - mp) && Starless(w, mp, j)
      invariant starred ==> Aligned(s, cp - 1, w, mp, j, caseSensitive)
      invariant starred ==> (Glob(s, w, caseSensitive) <==> Later(s, cp - 1, w, mp, caseSensitive))
      decreases if starred then |w| - mp else |w| + 1, |s| + 1 - cp, |s| - i
    {
      if j < |w| && w[j] == '*' {
        if starred {
          NewStarSubsumes(s, cp - 1, w, mp, j, caseSensitive);
        } else {
          StarIsLater(s, i, w, j, caseSensitive);
        }
        j := j + 1;
        if j == |w| {
          TrailingStar(s, i, w, caseSensitive);
          return true;
        }
        mp, cp, starred := j, i + 1, true;
        NothingYet(s, i, w, j, caseSensitive);
      } else if j < |w| && Fits(s[i], w[j], caseSensitive) {
        AlignedGrows(s, cp - 1, w, mp, j, caseSensitive);
        i, j := i + 1, j + 1;
      } else {
        MismatchAdvances(s, cp - 1, w, mp, j, caseSensitive);
        j, i := mp, cp;
        cp := cp + 1;
        NothingYet(s, i, w, j, caseSensitive);
      }
    }
    if starred { EndOfString(s, cp - 1, w, mp, j, caseSensitive); } else { assert s[i..] == ""; }
    while j < |w| && w[j] == '*'
      invariant j <= |w|
      invariant Glob(s, w, caseSensitive) <==> Glob("", w[j..], caseSensitive)
    {
      EmptyString(w, j, caseSensitive);
      j := j + 1;
    }
    EmptyString(w, j, caseSensitive);
    matches := j == |w|;
  }
}
