/** What a raw-block argument is, and the diagram that is read out of it. */
module RawBlocks {
  import opened Text
  import opened Lexing

  ghost predicate Spaces(s: string) { forall i | 0 <= i < |s| :: IsSpace(s[i]) }

  ghost predicate NameChars(s: string) { forall i | 0 <= i < |s| :: IsIdentChar(s[i]) }

  /** Three backticks in a row, nowhere in s. */
  ghost predicate FenceFree(s: string) { forall i | 0 <= i :: !FenceAt(s, i) }

  /** The text between the fences: on one line; or after a line that is blank or names a language; or on
      several lines of which the first is neither. `newline`: one more newline before the closing fence. */
  datatype Body =
    | Inline(code: string)
    | Tagged(lead: string, tag: string, trail: string, code: string, newline: bool)
    | Untagged(code: string, newline: bool)

  function Newline(newline: bool): string { if newline then "\n" else "" }

  function BodyText(b: Body): string {
    match b
    case Inline(code) => code
    case Tagged(lead, tag, trail, code, newline) => lead + tag + trail + "\n" + code + Newline(newline)
    case Untagged(code, newline) => code + Newline(newline)
  }

  ghost predicate SpacesIn(s: string, a: nat, b: nat) {
    a <= b <= |s| && forall i | a <= i < b :: IsSpace(s[i])
  }

  ghost predicate NamesIn(s: string, a: nat, b: nat) {
    a <= b <= |s| && forall i | a <= i < b :: IsIdentChar(s[i])
  }

  /** From a to b nothing stands but white space, with a name in it or without. */
  ghost predicate TagIn(s: string, a: nat, b: nat) {
    exists i, j :: SpacesIn(s, a, i) && NamesIn(s, i, j) && SpacesIn(s, j, b)
  }

  /** A blank line or a language tag. */
  ghost predicate TagLine(line: string) { TagIn(line, 0, |line|) }

  ghost predicate Whole(code: string, newline: bool) {
    newline || code == "" || code[|code| - 1] != '\n'
  }

  ghost predicate LegalBody(b: Body) {
    FenceFree(BodyText(b)) &&
    match b
    case Inline(code) => '\n' !in code
    case Tagged(lead, tag, trail, code, newline) =>
      && Spaces(lead) && NameChars(tag) && Spaces(trail) && '\n' !in lead && '\n' !in trail && Whole(code, newline)
    case Untagged(code, newline) =>
      && Whole(code, newline)
      && exists n | 0 <= n < |BodyText(b)| ::
           BodyText(b)[n] == '\n' && '\n' !in BodyText(b)[..n] && !TagLine(BodyText(b)[..n])
  }

  /** One raw block with nothing but white space around it. */
  ghost predicate IsRaw(args: string, pre: string, body: string, post: string) {
    args == pre + "```" + body + "```" + post && Spaces(pre) && Spaces(post) && FenceFree(body)
  }

  ghost predicate Raw(args: string) { exists pre, body, post :: IsRaw(args, pre, body, post) }

  /** With this code in it. */
  ghost predicate Holds(args: string, code: string) {
    exists pre, b, post :: LegalBody(b) && b.code == code && IsRaw(args, pre, BodyText(b), post)
  }

  // In positions.

  lemma {:induction false} SkipsSpaces(s: string, k: nat, e: nat)
    requires SpacesIn(s, k, e) && (e < |s| ==> !IsSpace(s[e]))
    ensures SkipSpace(s, k) == e
    decreases e - k
  {
    if k < e { SkipsSpaces(s, k + 1, e); }
  }

  lemma {:induction false} SkippedAreSpaces(s: string, k: nat)
    requires k <= |s|
    ensures SpacesIn(s, k, SkipSpace(s, k))
    decreases |s| - k
  {
    if k < |s| && IsSpace(s[k]) { SkippedAreSpaces(s, k + 1); }
  }

  lemma {:induction false} BackOverSpaces(s: string, lo: nat, b: nat, k: nat)
    requires lo <= b <= k <= |s| && SpacesIn(s, b, k) && (lo < b ==> !IsSpace(s[b - 1]))
    ensures BackSpace(s, lo, k) == b
    decreases k
  {
    if b < k { BackOverSpaces(s, lo, b, k - 1); }
  }

  lemma {:induction false} BackedAreSpaces(s: string, lo: nat, k: nat)
    requires lo <= k <= |s|
    ensures SpacesIn(s, BackSpace(s, lo, k), k)
    decreases k
  {
    if lo < k && IsSpace(s[k - 1]) { BackedAreSpaces(s, lo, k - 1); }
  }

  lemma {:induction false} HasFenceExactly(s: string, k: nat, hi: nat)
    requires k <= hi <= |s|
    ensures HasFence(s, k, hi) <==> exists i | k <= i <= hi - 3 :: FenceAt(s, i)
    decreases hi - k
  {
    if k + 3 <= hi && !FenceAt(s, k) { HasFenceExactly(s, k + 1, hi); }
  }

  /** s is one raw block, fenced from lo and up to hi. */
  ghost predicate RawIn(s: string, lo: nat, hi: nat) {
    && lo + 6 <= hi <= |s| && SpacesIn(s, 0, lo) && SpacesIn(s, hi, |s|)
    && FenceAt(s, lo) && FenceAt(s, hi - 3) && forall i | lo + 3 <= i <= hi - 6 :: !FenceAt(s, i)
  }

  /** The code that a raw-block argument gives. */
  function RawCode(args: string): Option<string> {
    match SingleRawBlock(args)
    case None => None
    case Some(body) => Some(args[body.0..body.1])
  }

  /** What SingleRawBlock takes for the code of s[x..y]. */
  function CodeOf(s: string, x: nat, y: nat): string
    requires x <= y <= |s|
  {
    var a := BodyStart(s, x, y);
    s[a..if a < y && s[y - 1] == '\n' then y - 1 else y]
  }

  lemma {:induction false} RawIsFound(s: string, lo: nat, hi: nat)
    requires RawIn(s, lo, hi)
    ensures SingleRawBlock(s).Some? && RawCode(s) == Some(CodeOf(s, lo + 3, hi - 3))
  {
    SkipsSpaces(s, 0, lo);
    BackOverSpaces(s, lo, hi, |s|);
    HasFenceExactly(s, lo + 3, hi - 3);
  }

  lemma {:induction false} FoundIsRaw(s: string)
    requires SingleRawBlock(s).Some?
    ensures var lo := SkipSpace(s, 0); RawIn(s, lo, BackSpace(s, lo, |s|))
  {
    var lo := SkipSpace(s, 0);
    var hi := BackSpace(s, lo, |s|);
    SkippedAreSpaces(s, 0);
    BackedAreSpaces(s, lo, |s|);
    HasFenceExactly(s, lo + 3, hi - 3);
  }

  lemma {:induction false} NameIsRead(s: string, k: nat)
    requires k <= |s|
    ensures NamesIn(s, k, IdentEnd(s, k))
    decreases |s| - k
  {
    if k < |s| && IsIdentChar(s[k]) { NameIsRead(s, k + 1); }
  }

  lemma {:induction false} TagIsRead(s: string, lo: nat, nl: nat, p: nat, i: nat, j: nat)
    requires lo <= p < nl < |s| && SpacesIn(s, lo, p) && !IsSpace(s[p]) && s[nl] == '\n'
    requires SpacesIn(s, lo, i) && NamesIn(s, i, j) && SpacesIn(s, j, nl)
    ensures IdentEnd(s, p) == BackSpace(s, p, nl)
  {
    if i < j { assert !IsSpace(s[i]); }
    assert i == p && p < j;
    IdentEndsAt(s, p, j);
    BackOverSpaces(s, p, j, nl);
  }

  /** The first line of s[lo..] is left out exactly when it is blank or a tag. */
  lemma {:induction false} FirstLineExactly(s: string, lo: nat, nl: nat)
    requires lo <= nl < |s| && s[nl] == '\n'
    ensures var p := SkipSpace(s, lo);
            p >= nl || IdentEnd(s, p) == BackSpace(s, p, nl) <==> TagIn(s, lo, nl)
  {
    var p := SkipSpace(s, lo);
    SkippedAreSpaces(s, lo);
    if p >= nl {
      assert SpacesIn(s, lo, nl) && NamesIn(s, nl, nl) && SpacesIn(s, nl, nl);
    } else {
      BackedAreSpaces(s, p, nl);
      NameIsRead(s, p);
      if IdentEnd(s, p) == BackSpace(s, p, nl) {
        assert NamesIn(s, p, IdentEnd(s, p)) && SpacesIn(s, IdentEnd(s, p), nl);
      }
      if i, j :| SpacesIn(s, lo, i) && NamesIn(s, i, j) && SpacesIn(s, j, nl) {
        TagIsRead(s, lo, nl, p, i, j);
      }
    }
  }

  /** Where the code starts in s[lo..hi]. */
  lemma {:induction false} CodeStarts(s: string, lo: nat, hi: nat, nl: nat)
    requires lo <= nl <= hi <= |s| && (nl < hi ==> s[nl] == '\n') && forall i | lo <= i < nl :: s[i] != '\n'
    ensures BodyStart(s, lo, hi) == if nl < hi && TagIn(s, lo, nl) then nl + 1 else lo
  {
    NoneBefore(s, '\n', lo);
    if nl < hi {
      CharIsAt(s, '\n', lo, nl);
      FirstLineExactly(s, lo, nl);
    }
  }

  lemma {:induction false} TagInIsTagLine(s: string, x: nat, nl: nat)
    requires x <= nl <= |s|
    ensures TagIn(s, x, nl) <==> TagLine(s[x..nl])
  {
    var (line, n) := (s[x..nl], nl - x);
    if i: nat, j: nat :| SpacesIn(s, x, i) && NamesIn(s, i, j) && SpacesIn(s, j, nl) {
      assert SpacesIn(line, 0, i - x) && NamesIn(line, i - x, j - x) && SpacesIn(line, j - x, n);
    }
    if i: nat, j: nat :| SpacesIn(line, 0, i) && NamesIn(line, i, j) && SpacesIn(line, j, n) {
      forall k | x <= k < nl ensures s[k] == line[k - x] {}
      assert SpacesIn(s, x, x + i) && NamesIn(s, x + i, x + j) && SpacesIn(s, x + j, nl);
    }
  }

  lemma {:induction false} InlineIsRead(s: string, x: nat, y: nat, b: Body)
    requires x <= y <= |s| && b.Inline? && LegalBody(b) && s[x..y] == BodyText(b)
    ensures CodeOf(s, x, y) == b.code
  {
    forall i | x <= i < y ensures s[i] != '\n' { assert s[i] == b.code[i - x]; }
    CodeStarts(s, x, y, y);
  }

  lemma {:induction false} TaggedPlaces(s: string, x: nat, y: nat, b: Body, tail: string)
    requires x <= y <= |s| && b.Tagged? && s[x..y] == b.lead + b.tag + b.trail + "\n" + tail
    requires Spaces(b.lead) && NameChars(b.tag) && Spaces(b.trail) && '\n' !in b.lead && '\n' !in b.trail
    ensures var nl := x + |b.lead| + |b.tag| + |b.trail|;
            && nl < y && s[nl] == '\n' && TagIn(s, x, nl) && s[nl + 1..y] == tail
            && forall i | x <= i < nl :: s[i] != '\n'
  {
    var line := b.lead + b.tag + b.trail;
    var text := line + "\n" + tail;
    var nl := x + |line|;
    assert s[nl] == text[|line|] && s[nl + 1..y] == text[|line| + 1..];
    assert s[x..nl] == text[..|line|] == line;
    var (i, j) := (|b.lead|, |b.lead| + |b.tag|);
    assert SpacesIn(line, 0, i) && NamesIn(line, i, j) && SpacesIn(line, j, |line|) by {
      assert forall k | 0 <= k < i :: line[k] == b.lead[k];
      assert forall k | i <= k < j :: line[k] == b.tag[k - i];
      assert forall k | j <= k < |line| :: line[k] == b.trail[k - j];
    }
    TagInIsTagLine(s, x, nl);
    forall i | x <= i < nl ensures s[i] != '\n' {
      assert s[i] == line[i - x];
      if i - x < |b.lead| { assert s[i] == b.lead[i - x]; }
      else if i - x < |b.lead| + |b.tag| { assert s[i] == b.tag[i - x - |b.lead|]; }
      else { assert s[i] == b.trail[i - x - |b.lead| - |b.tag|]; }
    }
  }

  /** One newline at the end is left out. */
  lemma {:induction false} TailIsRead(s: string, a: nat, y: nat, code: string, newline: bool)
    requires a <= y <= |s| && s[a..y] == code + Newline(newline) && Whole(code, newline)
    ensures s[a..if a < y && s[y - 1] == '\n' then y - 1 else y] == code
  {
    var text := s[a..y];
    if newline {
      assert s[y - 1] == text[|text| - 1] == '\n';
      assert s[a..y - 1] == text[..|text| - 1] == code;
    } else if code != "" {
      assert s[y - 1] == text[|text| - 1] == code[|code| - 1];
    }
  }

  lemma {:induction false} TaggedIsRead(s: string, x: nat, y: nat, b: Body)
    requires x <= y <= |s| && b.Tagged? && LegalBody(b) && s[x..y] == BodyText(b)
    ensures CodeOf(s, x, y) == b.code
  {
    var (i, j) := (x + |b.lead|, x + |b.lead| + |b.tag|);
    var nl := j + |b.trail|;
    var tail := b.code + Newline(b.newline);
    assert BodyText(b) == b.lead + b.tag + b.trail + "\n" + tail;
    TaggedPlaces(s, x, y, b, tail);
    CodeStarts(s, x, y, nl);
    assert s[nl + 1..y] == tail;
    TailIsRead(s, nl + 1, y, b.code, b.newline);
  }

  lemma {:induction false} FirstLineStays(s: string, x: nat, y: nat, text: string, n: nat)
    requires x <= y <= |s| && s[x..y] == text && n < |text|
    requires text[n] == '\n' && '\n' !in text[..n] && !TagLine(text[..n])
    ensures BodyStart(s, x, y) == x
  {
    assert s[x..x + n] == text[..n];
    forall i | x <= i < x + n ensures s[i] != '\n' { assert s[i] == text[..n][i - x]; }
    TagInIsTagLine(s, x, x + n);
    CodeStarts(s, x, y, x + n);
  }

  lemma {:induction false} UntaggedIsRead(s: string, x: nat, y: nat, b: Body)
    requires x <= y <= |s| && b.Untagged? && LegalBody(b) && s[x..y] == BodyText(b)
    ensures CodeOf(s, x, y) == b.code
  {
    var text := BodyText(b);
    var n :| 0 <= n < |text| && text[n] == '\n' && '\n' !in text[..n] && !TagLine(text[..n]);
    FirstLineStays(s, x, y, text, n);
    TailIsRead(s, x, y, b.code, b.newline);
  }

  lemma {:induction false} FencePlaces(s: string, k: nat)
    requires k + 3 <= |s|
    ensures FenceAt(s, k) <==> s[k..k + 3] == "```"
  {
    var t := s[k..k + 3];
    assert t[0] == s[k] && t[1] == s[k + 1] && t[2] == s[k + 2];
  }

  /** The places of a raw block in its argument. */
  lemma {:induction false} RawPlaces(args: string, pre: string, body: string, post: string)
    requires IsRaw(args, pre, body, post)
    ensures var lo := |pre|; var hi := lo + 6 + |body|;
            RawIn(args, lo, hi) && args[lo + 3..hi - 3] == body
  {
    var (lo, hi) := (|pre|, |pre| + 6 + |body|);
    assert args[..lo] == pre && args[hi..] == post;
    assert args[lo..lo + 3] == "```" && args[hi - 3..hi] == "```" && args[lo + 3..hi - 3] == body;
    forall i | 0 <= i < lo ensures IsSpace(args[i]) { assert args[i] == pre[i]; }
    forall i | hi <= i < |args| ensures IsSpace(args[i]) { assert args[i] == post[i - hi]; }
    FencePlaces(args, lo);
    FencePlaces(args, hi - 3);
    forall i | lo + 3 <= i <= hi - 6 ensures !FenceAt(args, i) {
      assert args[i] == body[i - lo - 3] && args[i + 1] == body[i - lo - 2] && args[i + 2] == body[i - lo - 1];
      assert !FenceAt(body, i - lo - 3);
    }
  }

  lemma {:induction false} RawInIsRaw(args: string, lo: nat, hi: nat)
    requires RawIn(args, lo, hi)
    ensures IsRaw(args, args[..lo], args[lo + 3..hi - 3], args[hi..])
  {
    var (pre, body, post) := (args[..lo], args[lo + 3..hi - 3], args[hi..]);
    FencePlaces(args, lo);
    FencePlaces(args, hi - 3);
    assert args == pre + args[lo..lo + 3] + body + args[hi - 3..hi] + post;
    forall i | 0 <= i ensures !FenceAt(body, i) {
      if i + 3 <= |body| { assert !FenceAt(args, lo + 3 + i); }
    }
  }

  /** The argument is one raw block exactly when the fences, white space around them and a text without a
      fence between them make it up. */
  lemma {:induction false} RawExactly(args: string)
    ensures SingleRawBlock(args).Some? <==> Raw(args)
  {
    if pre, body, post :| IsRaw(args, pre, body, post) {
      RawPlaces(args, pre, body, post);
      RawIsFound(args, |pre|, |pre| + 6 + |body|);
    }
    if SingleRawBlock(args).Some? {
      FoundIsRaw(args);
      RawInIsRaw(args, SkipSpace(args, 0), BackSpace(args, SkipSpace(args, 0), |args|));
    }
  }

  lemma {:induction false} BodyIsRead(s: string, x: nat, y: nat, b: Body)
    requires x <= y <= |s| && LegalBody(b) && s[x..y] == BodyText(b)
    ensures CodeOf(s, x, y) == b.code
  {
    match b
    case Inline(_) => InlineIsRead(s, x, y, b);
    case Tagged(_, _, _, _, _) => TaggedIsRead(s, x, y, b);
    case Untagged(_, _) => UntaggedIsRead(s, x, y, b);
  }

  lemma {:induction false} BlockIsRead(args: string, lo: nat, hi: nat, b: Body)
    requires RawIn(args, lo, hi) && LegalBody(b) && args[lo + 3..hi - 3] == BodyText(b)
    ensures RawCode(args) == Some(b.code)
  {
    RawIsFound(args, lo, hi);
    BodyIsRead(args, lo + 3, hi - 3, b);
  }

  /** And then the code that is read is the one it holds. */
  lemma {:induction false} RawReadsBack(args: string, pre: string, b: Body, post: string)
    requires IsRaw(args, pre, BodyText(b), post) && LegalBody(b)
    ensures RawCode(args) == Some(b.code)
  {
    RawPlaces(args, pre, BodyText(b), post);
    BlockIsRead(args, |pre|, |pre| + 6 + |BodyText(b)|, b);
  }

  lemma {:induction false} TagParts(line: string) returns (lead: string, tag: string, trail: string)
    requires TagLine(line)
    ensures line == lead + tag + trail && Spaces(lead) && NameChars(tag) && Spaces(trail)
    ensures '\n' !in line ==> '\n' !in lead && '\n' !in trail
  {
    var i: nat, j: nat :| SpacesIn(line, 0, i) && NamesIn(line, i, j) && SpacesIn(line, j, |line|);
    lead, tag, trail := line[..i], line[i..j], line[j..];
  }

  lemma {:induction false} LastNewline(rest: string) returns (code: string, newline: bool)
    ensures rest == code + Newline(newline) && Whole(code, newline)
  {
    newline := rest != "" && rest[|rest| - 1] == '\n';
    code := if newline then rest[..|rest| - 1] else rest;
  }

  lemma Rejoin(a: string, b: string, c: string, d: string)
    ensures a + b + c + d == a + b + (c + d)
  {}

  lemma {:induction false} TaggedBody(body: string, n: nat) returns (b: Body)
    requires FenceFree(body) && n < |body| && body[n] == '\n' && '\n' !in body[..n] && TagLine(body[..n])
    ensures LegalBody(b) && BodyText(b) == body
  {
    var lead, tag, trail := TagParts(body[..n]);
    var code, newline := LastNewline(body[n + 1..]);
    b := Tagged(lead, tag, trail, code, newline);
    calc {
      BodyText(b);
      lead + tag + trail + "\n" + code + Newline(newline);
      { Rejoin(lead + tag + trail, "\n", code, Newline(newline)); }
      body[..n] + "\n" + body[n + 1..];
      body;
    }
  }

  /** Every text without a fence can stand there. */
  lemma {:induction false} EveryBody(body: string) returns (b: Body)
    requires FenceFree(body)
    ensures LegalBody(b) && BodyText(b) == body
  {
    var n := FindChar(body, '\n', 0);
    NoneBefore(body, '\n', 0);
    if n == |body| {
      b := Inline(body);
    } else if TagLine(body[..n]) {
      b := TaggedBody(body, n);
    } else {
      var newline := body[|body| - 1] == '\n';
      b := Untagged(if newline then body[..|body| - 1] else body, newline);
      assert BodyText(b) == body;
    }
  }

  lemma {:induction false} RawCodeExactly(args: string, code: string)
    ensures RawCode(args) == Some(code) <==> Holds(args, code)
  {
    if pre, b, post :| LegalBody(b) && b.code == code && IsRaw(args, pre, BodyText(b), post) {
      RawReadsBack(args, pre, b, post);
    }
    if RawCode(args) == Some(code) {
      RawExactly(args);
      var pre, body, post :| IsRaw(args, pre, body, post);
      var b := EveryBody(body);
      RawReadsBack(args, pre, b, post);
    }
  }
}
