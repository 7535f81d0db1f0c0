/**
 What wildcard matching promises, by the characters themselves: these laws leave only one relation, and
 `Wildcmp` decides it.
 */
module WildcardLaws {
  import opened Wildcard

  /** Equal, or the two cases of one ASCII letter. */
  predicate SameLetter(a: char, b: char) {
    || a == b
    || ('a' <= a <= 'z' && 'A' <= b <= 'Z' && a as int == b as int + 32)
    || ('A' <= a <= 'Z' && 'a' <= b <= 'z' && b as int == a as int + 32)
  }

  /** A mask without wildcards. */
  predicate IsPlain(mask: string) { forall i :: 0 <= i < |mask| ==> mask[i] != '*' && mask[i] != '?' }

  /** A plain mask matches the string it is, or, where case does not count, those with the same letters. */
  lemma {:induction false} PlainMask(s: string, mask: string)
    requires IsPlain(mask)
    ensures Glob(s, mask, true) <==> s == mask
    ensures Glob(s, mask, false) <==> |s| == |mask| && forall i :: 0 <= i < |s| ==> SameLetter(s[i], mask[i])
    decreases |mask|
  {
    if mask != "" && s != "" {
      var s', mask' := s[1..], mask[1..];
      PlainMask(s', mask');
      assert s == [s[0]] + s' && mask == [mask[0]] + mask';
      assert forall i :: 0 <= i < |s'| ==> s'[i] == s[i + 1];
      assert forall i :: 0 <= i < |mask'| ==> mask'[i] == mask[i + 1];
      SameFold(s[0], mask[0]);
      hide SameLetter, Fits;
      if |s| == |mask| && SameLetter(s[0], mask[0]) && forall i :: 0 <= i < |s'| ==> SameLetter(s'[i], mask'[i]) {
        forall i | 0 <= i < |s| ensures SameLetter(s[i], mask[i]) {
          if i > 0 { assert SameLetter(s'[i - 1], mask'[i - 1]); }
        }
      }
    }
  }

  lemma SameFold(c: char, m: char)
    requires m != '?'
    ensures Fits(c, m, true) <==> c == m
    ensures Fits(c, m, false) <==> SameLetter(c, m)
  {}

  /** `?` matches any one character and nothing else, `*` matches everything, and nothing matches nothing. */
  lemma Wildcards(s: string, cs: bool)
    ensures Glob(s, "?", cs) <==> |s| == 1
    ensures Glob(s, "*", cs)
    ensures Glob(s, "", cs) <==> s == ""
  {
    assert "?"[1..] == "" && "*"[1..] == "";
    assert s[|s|..] == "" && Glob(s[|s|..], "*"[1..], cs);
  }

  /** A mask in two parts matches a string in two parts. */
  lemma {:induction false} MaskAppend(s: string, a: string, b: string, cs: bool)
    ensures Glob(s, a + b, cs) <==> exists k | 0 <= k <= |s| :: Glob(s[..k], a, cs) && Glob(s[k..], b, cs)
    decreases |a|
  {
    if a == "" {
      assert a + b == b && s[..0] == "" && s[0..] == s;
      assert Glob(s, b, cs) ==> Glob(s[..0], a, cs) && Glob(s[0..], b, cs);
    } else {
      assert (a + b)[0] == a[0] && (a + b)[1..] == a[1..] + b;
      if a[0] == '*' {
        StarAppend(s, a, b, cs);
      } else {
        CharAppend(s, a, b, cs);
      }
    }
  }

  lemma CharAppend(s: string, a: string, b: string, cs: bool)
    requires a != "" && a[0] != '*' && (a + b)[1..] == a[1..] + b
    ensures Glob(s, a + b, cs) <==> exists k | 0 <= k <= |s| :: Glob(s[..k], a, cs) && Glob(s[k..], b, cs)
    decreases |a|, 0
  {
    hide Fits;
    if s != "" { MaskAppend(s[1..], a[1..], b, cs); }
    if Glob(s, a + b, cs) {
      var k :| 0 <= k <= |s[1..]| && Glob(s[1..][..k], a[1..], cs) && Glob(s[1..][k..], b, cs);
      assert s[..k + 1][1..] == s[1..][..k] && s[k + 1..] == s[1..][k..];
      assert Glob(s[..k + 1], a, cs) && Glob(s[k + 1..], b, cs);
    }
    forall k | 0 <= k <= |s| && Glob(s[..k], a, cs) && Glob(s[k..], b, cs) ensures Glob(s, a + b, cs) {
      assert s[..k][1..] == s[1..][..k - 1] && s[k..] == s[1..][k - 1..];
    }
  }

  lemma StarAppend(s: string, a: string, b: string, cs: bool)
    requires a != "" && a[0] == '*' && (a + b)[1..] == a[1..] + b
    ensures Glob(s, a + b, cs) <==> exists k | 0 <= k <= |s| :: Glob(s[..k], a, cs) && Glob(s[k..], b, cs)
    decreases |a|, 0
  {
    if Glob(s, a + b, cs) {
      var j :| 0 <= j <= |s| && Glob(s[j..], a[1..] + b, cs);
      MaskAppend(s[j..], a[1..], b, cs);
      var k :| 0 <= k <= |s[j..]| && Glob(s[j..][..k], a[1..], cs) && Glob(s[j..][k..], b, cs);
      assert s[..j + k][j..] == s[j..][..k] && s[j + k..] == s[j..][k..];
      assert Glob(s[..j + k], a, cs) && Glob(s[j + k..], b, cs);
    }
    forall k | 0 <= k <= |s| && Glob(s[..k], a, cs) && Glob(s[k..], b, cs) ensures Glob(s, a + b, cs) {
      var j :| 0 <= j <= |s[..k]| && Glob(s[..k][j..], a[1..], cs);
      assert s[..k][j..] == s[j..][..k - j] && s[k..] == s[j..][k - j..];
      MaskAppend(s[j..], a[1..], b, cs);
      assert Glob(s[j..], a[1..] + b, cs);
    }
  }

  /** What matches with regard to case matches without. */
  lemma {:induction false} CaseOnlyRestricts(s: string, mask: string)
    ensures Glob(s, mask, true) ==> Glob(s, mask, false)
    decreases |mask|
  {
    if mask != "" {
      if mask[0] == '*' {
        forall k | 0 <= k <= |s| ensures Glob(s[k..], mask[1..], true) ==> Glob(s[k..], mask[1..], false) {
          CaseOnlyRestricts(s[k..], mask[1..]);
        }
      } else if s != "" {
        CaseOnlyRestricts(s[1..], mask[1..]);
      }
    }
  }
}
