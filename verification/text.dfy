/** Text helpers shared by the scanner and the signature parser.

    A Go string is a sequence of bytes; here it is a `string` whose characters are those bytes,
    so offsets agree with the source. */
module Text {

  datatype Option<+T> = None | Some(value: T)

  /** The name alphabet of Typst as the scanner sees it. */
  predicate IsIdentChar(c: char) {
    c == '_' || c == '-' || 'a' <= c <= 'z' || 'A' <= c <= 'Z' || '0' <= c <= '9'
  }

  /** ASCII white space, as Go's strings package trims and splits it. */
  predicate IsSpace(c: char) {
    c == ' ' || c == '\t' || c == '\n' || c == '\r' || c == '\U{0B}' || c == '\U{0C}'
  }

  ghost predicate Distinct(names: seq<string>) {
    forall i, k | 0 <= i < k < |names| :: names[i] != names[k]
  }

  /** The byte at k, or NUL outside the text. */
  function At(s: string, k: int): char {
    if 0 <= k < |s| then s[k] else '\0'
  }

  /** The first c at or after k, or the end of the text. */
  function FindChar(s: string, c: char, k: nat): (r: nat)
    requires k <= |s|
    ensures k <= r <= |s|
    ensures r < |s| ==> s[r] == c
    decreases |s| - k
  {
    if k == |s| || s[k] == c then k else FindChar(s, c, k + 1)
  }

  /** Where it is found, and that it is not found before. */
  lemma {:induction false} CharIsAt(s: string, c: char, k: nat, e: nat)
    requires k <= e <= |s| && (e < |s| ==> s[e] == c) && forall i | k <= i < e :: s[i] != c
    ensures FindChar(s, c, k) == e
    decreases e - k
  {
    if k < e { CharIsAt(s, c, k + 1, e); }
  }

  lemma {:induction false} NoneBefore(s: string, c: char, k: nat)
    requires k <= |s|
    ensures forall i | k <= i < FindChar(s, c, k) :: s[i] != c
    decreases |s| - k
  {
    if k < |s| && s[k] != c { NoneBefore(s, c, k + 1); }
  }

  /** The end of the run of name characters that starts at k. */
  function IdentEnd(s: string, k: nat): (e: nat)
    requires k <= |s|
    ensures k <= e <= |s|
    ensures e < |s| ==> !IsIdentChar(s[e])
    decreases |s| - k
  {
    if k < |s| && IsIdentChar(s[k]) then IdentEnd(s, k + 1) else k
  }

  lemma {:induction false} IdentEndsAt(s: string, k: nat, e: nat)
    requires k <= e <= |s| && (e < |s| ==> !IsIdentChar(s[e])) && forall p | k <= p < e :: IsIdentChar(s[p])
    ensures IdentEnd(s, k) == e
    decreases e - k
  {
    if k < e { IdentEndsAt(s, k + 1, e); }
  }

  /** The first position at or after k that is not white space, or the end of the text. */
  function SkipSpace(s: string, k: nat): (a: nat)
    requires k <= |s|
    ensures k <= a <= |s|
    ensures a < |s| ==> !IsSpace(s[a])
    decreases |s| - k
  {
    if k < |s| && IsSpace(s[k]) then SkipSpace(s, k + 1) else k
  }

  /** The end of the text before k with the white space after it dropped, not going below lo. */
  function BackSpace(s: string, lo: nat, k: nat): (b: nat)
    requires lo <= k <= |s|
    ensures lo <= b <= k
    ensures lo < b ==> !IsSpace(s[b - 1])
  {
    if lo < k && IsSpace(s[k - 1]) then BackSpace(s, lo, k - 1) else k
  }

  /** strings.TrimSpace. */
  function TrimSpace(s: string): (t: string)
    ensures |t| <= |s|
  {
    var a := SkipSpace(s, 0);
    s[a..BackSpace(s, a, |s|)]
  }

  /** s reads t at k. */
  predicate Reads(s: string, k: nat, t: string)
    ensures Reads(s, k, t) ==> k + |t| <= |s|
    decreases |t|, s, k
  {
    if t == "" then k <= |s| else k < |s| && s[k] == t[0] && Reads(s, k + 1, t[1..])
  }

  lemma {:induction false} ReadsBoth(s: string, k: nat, t: string, u: string)
    ensures Reads(s, k, t + u) <==> Reads(s, k, t) && Reads(s, k + |t|, u)
    decreases |t|
  {
    if t == "" {
      assert t + u == u;
    } else {
      assert (t + u)[1..] == t[1..] + u;
      ReadsBoth(s, k + 1, t[1..], u);
    }
  }

  lemma {:induction false} ReadsSlice(s: string, k: nat, e: nat)
    requires k <= e <= |s|
    ensures Reads(s, k, s[k..e])
    decreases e - k
  {
    if k < e {
      ReadsSlice(s, k + 1, e);
      assert s[k..e][1..] == s[k + 1..e];
    }
  }

  lemma ReadsOne(s: string, k: nat, c: char)
    ensures Reads(s, k, [c]) <==> k < |s| && s[k] == c
  {
    assert [c][1..] == "";
  }
}
