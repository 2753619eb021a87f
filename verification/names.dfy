/** Which namespace names may be claimed. */
module Names {
  import Decimal

  const HOUSE := "house"
  const PREVIEW := "preview"
  const DERIVED_PREFIX := "gh-"

  datatype Verdict = Claimable | BadLength | BadPattern | Reserved | Personal

  predicate LowerOrDigit(c: char) { 'a' <= c <= 'z' || '0' <= c <= '9' }

  ghost predicate FirstPart(s: string, n: nat)
    requires n <= |s|
  {
    (forall i | 0 <= i < n :: LowerOrDigit(s[i])) && exists i | 0 <= i < n :: 'a' <= s[i] <= 'z'
  }

  /** (-[a-z0-9]+)* from position i to the end. */
  ghost predicate Parts(s: string, i: nat)
    requires i <= |s|
    decreases |s| - i
  {
    i == |s|
    || (s[i] == '-' && exists k | i + 1 < k <= |s| :: (forall p | i < p < k :: LowerOrDigit(s[p])) && Parts(s, k))
  }

  /** What ^[a-z0-9]*[a-z][a-z0-9]*(-[a-z0-9]+)*$ matches: a first part with a letter in it, at
      positions before n, then hyphenated parts. */
  ghost predicate Matches(s: string) {
    exists n | 0 <= n <= |s| :: FirstPart(s, n) && Parts(s, n)
  }

  /** The same in one pass: `letter` says whether the first part has its letter, `bare` that a part
      has just begun. */
  function Walk(s: string, i: nat, letter: bool, bare: bool): bool
    requires i <= |s|
    decreases |s| - i
  {
    if i == |s| then letter && !bare
    else if s[i] == '-' then letter && !bare && Walk(s, i + 1, true, true)
    else LowerOrDigit(s[i]) && Walk(s, i + 1, letter || 'a' <= s[i] <= 'z', false)
  }

  predicate MatchesPattern(s: string) { Walk(s, 0, false, true) }

  /** A part that is being read ends at k and whole parts follow. */
  ghost predicate EndsAt(s: string, i: nat, bare: bool, k: int)
    requires i <= |s|
  {
    i <= k <= |s| && (bare ==> i < k) && (forall p | i <= p < k :: LowerOrDigit(s[p])) && Parts(s, k)
  }

  lemma {:induction false} WalkLater(s: string, i: nat, bare: bool)
    requires i <= |s|
    ensures Walk(s, i, true, bare) <==> exists k :: EndsAt(s, i, bare, k)
    decreases |s| - i
  {
    if i == |s| {
      if !bare { assert EndsAt(s, i, bare, i); }
    } else if s[i] == '-' {
      WalkLater(s, i + 1, true);
      var j := i + 1;
      if k :| EndsAt(s, j, true, k) && !bare {
        assert Parts(s, i);
        assert EndsAt(s, i, bare, i);
      }
      if k :| EndsAt(s, i, bare, k) {
        assert k == i && Parts(s, i);
        var k2 :| i + 1 < k2 <= |s| && (forall p | i < p < k2 :: LowerOrDigit(s[p])) && Parts(s, k2);
        assert EndsAt(s, i + 1, true, k2);
      }
    } else {
      WalkLater(s, i + 1, false);
      var j := i + 1;
      if k :| EndsAt(s, j, false, k) && LowerOrDigit(s[i]) {
        assert EndsAt(s, i, bare, k);
      }
      if k :| EndsAt(s, i, bare, k) {
        assert k > i;
        assert EndsAt(s, i + 1, false, k);
      }
    }
  }

  /** From inside the first part, before its letter. */
  lemma {:induction false} WalkFirst(s: string, i: nat)
    requires i <= |s| && forall p | 0 <= p < i :: '0' <= s[p] <= '9'
    ensures Walk(s, i, false, i == 0) <==> Matches(s)
    decreases |s| - i
  {
    if n :| 0 <= n <= |s| && FirstPart(s, n) && Parts(s, n) {
      assert n > i;
      if 'a' <= s[i] <= 'z' { assert EndsAt(s, i + 1, false, n); }
    }
    if i < |s| && '0' <= s[i] <= '9' {
      WalkFirst(s, i + 1);
    } else if i < |s| && 'a' <= s[i] <= 'z' {
      WalkLater(s, i + 1, false);
      var j := i + 1;
      if k :| EndsAt(s, j, false, k) { assert FirstPart(s, k); }
    }
  }

  /** The pass accepts what the pattern matches. */
  lemma PatternIsWalk(s: string)
    ensures MatchesPattern(s) <==> Matches(s)
  {
    WalkFirst(s, 0);
  }

  /** ValidateName. */
  function Validate(name: string): Verdict {
    if |name| < 2 || |name| > 39 then BadLength
    else if !MatchesPattern(name) then BadPattern
    else if name == PREVIEW || name == HOUSE then Reserved
    else if DERIVED_PREFIX <= name then Personal
    else Claimable
  }

  /** A name can be claimed exactly when it has 2 to 39 bytes, matches the pattern, is not reserved and does
      not look like a derived one. */
  lemma ClaimableExactly(name: string)
    ensures Validate(name) == Claimable <==>
            && 2 <= |name| <= 39 && Matches(name) && name != "house" && name != "preview"
            && !(name[0] == 'g' && name[1] == 'h' && |name| > 2 && name[2] == '-')
  {
    PatternIsWalk(name);
  }

  function Derived(githubId: int): string {
    DERIVED_PREFIX + Decimal.Print(githubId)
  }

  /** Each account has a derived name of its own, and nobody can claim one. */
  lemma DerivedNames(a: int, b: int)
    ensures Derived(a) == Derived(b) ==> a == b
    ensures Validate(Derived(a)) != Claimable && Derived(a) != HOUSE && Derived(a) != PREVIEW
  {
    assert Derived(a)[3..] == Decimal.Print(a) && Derived(b)[3..] == Decimal.Print(b);
    if Derived(a) == Derived(b) { Decimal.PrintsDiffer(a, b); }
    assert Derived(a)[1] == 'h';
  }
}
