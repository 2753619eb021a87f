/** What the cursor-moving helpers of scan.go compute, as functions of the source text. */
module Lexing {
  import opened Text

  /** Just past the string whose body starts at k. An escape takes the following byte with it,
      so on an unterminated string this may be one past the end of the text. */
  function StringEnd(s: string, k: nat): (e: nat)
    requires k <= |s| + 1
    ensures k <= e <= |s| + 1
    ensures k < |s| ==> k < e
    decreases |s| + 1 - k
  {
    if k >= |s| then k
    else if s[k] == '\\' then StringEnd(s, k + 2)
    else if s[k] == '"' then k + 1
    else StringEnd(s, k + 1)
  }

  // The multi-byte tokens the scanner peeks at.
  predicate LineCommentAt(s: string, k: nat) { At(s, k) == '/' && At(s, k + 1) == '/' }

  predicate BlockCommentAt(s: string, k: nat) { At(s, k) == '/' && At(s, k + 1) == '*' }

  predicate CommentCloseAt(s: string, k: nat) { At(s, k) == '*' && At(s, k + 1) == '/' }

  predicate FenceAt(s: string, k: nat) { At(s, k) == '`' && At(s, k + 1) == '`' && At(s, k + 2) == '`' }

  predicate HashD2At(s: string, k: nat) { At(s, k) == '#' && At(s, k + 1) == 'd' && At(s, k + 2) == '2' }

  /** Past the next comment close, or the end of the text. */
  function PastComment(s: string, k: nat): (e: nat)
    requires k <= |s|
    ensures k <= e <= |s|
    ensures e == |s| || k + 2 <= e
    decreases |s| - k
  {
    if k == |s| then k else if CommentCloseAt(s, k) then k + 2 else PastComment(s, k + 1)
  }

  /** Past the next fence, or the end of the text. */
  function PastFence(s: string, k: nat): (e: nat)
    requires k <= |s|
    ensures k <= e <= |s|
    ensures e == |s| || k + 3 <= e
    decreases |s| - k
  {
    if k == |s| then k else if FenceAt(s, k) then k + 3 else PastFence(s, k + 1)
  }

  /** Past the next c, or the end of the text when there is none. */
  function PastChar(s: string, c: char, k: nat): (e: nat)
    requires k <= |s|
    ensures k <= e <= |s|
  {
    var r := FindChar(s, c, k);
    if r < |s| then r + 1 else r
  }

  /** strings.Contains(s[k..hi], "```"). */
  predicate HasFence(s: string, k: nat, hi: nat)
    requires k <= hi <= |s|
    decreases hi - k
  {
    k + 3 <= hi && (FenceAt(s, k) || HasFence(s, k + 1, hi))
  }

  /** The end of the comment, string or raw text that starts at k, if one does. */
  function OpaqueEnd(s: string, k: nat): (r: Option<nat>)
    requires k < |s|
    ensures r.Some? ==> k < r.value <= |s| + 1
  {
    if LineCommentAt(s, k) then Some(FindChar(s, '\n', k + 2))
    else if BlockCommentAt(s, k) then Some(PastComment(s, k + 2))
    else if s[k] == '"' then Some(StringEnd(s, k + 1))
    else if FenceAt(s, k) then Some(PastFence(s, k + 3))
    else if s[k] == '`' then Some(PastChar(s, '`', k + 1))
    else None
  }

  /** Where the parenthesis group that is `depth` deep at k closes. */
  function ParenEnd(s: string, k: nat, depth: nat): (r: Option<nat>)
    requires k <= |s| + 1 && depth > 0
    ensures r.Some? ==> k < r.value <= |s| && s[r.value - 1] == ')'
    decreases |s| + 1 - k
  {
    if k >= |s| then None else
    match OpaqueEnd(s, k)
    case Some(e) => ParenEnd(s, e, depth)
    case None =>
      if s[k] == '(' then ParenEnd(s, k + 1, depth + 1)
      else if s[k] != ')' then ParenEnd(s, k + 1, depth)
      else if depth == 1 then Some(k + 1)
      else ParenEnd(s, k + 1, depth - 1)
  }

  /** Where the D2 bracket group that is `depth` deep at k closes. `lineBlank` says that only
      white space precedes k on its line, which is where D2 allows a comment. */
  function BracketEnd(s: string, k: nat, depth: nat, lineBlank: bool): (r: Option<nat>)
    requires k <= |s| + 1 && depth > 0
    ensures r.Some? ==> k < r.value <= |s| && s[r.value - 1] == ']'
    decreases |s| + 1 - k, lineBlank
  {
    if k >= |s| then None
    else if s[k] == '"' then BracketEnd(s, StringEnd(s, k + 1), depth, false)
    else if s[k] == '#' && lineBlank then BracketEnd(s, FindChar(s, '\n', k), depth, true)
    else if s[k] == '\n' then BracketEnd(s, k + 1, depth, true)
    else if s[k] == ' ' || s[k] == '\t' || s[k] == '\r' then BracketEnd(s, k + 1, depth, lineBlank)
    else if s[k] == '[' then BracketEnd(s, k + 1, depth + 1, false)
    else if s[k] != ']' then BracketEnd(s, k + 1, depth, false)
    else if depth == 1 then Some(k + 1)
    else BracketEnd(s, k + 1, depth - 1, false)
  }

  /** Where the code starts in s[lo..hi]: past a first line that is blank or only a language tag. */
  function BodyStart(s: string, lo: nat, hi: nat): (a: nat)
    requires lo <= hi <= |s|
    ensures lo <= a <= hi
  {
    var nl := FindChar(s, '\n', lo);
    var p := SkipSpace(s, lo);
    if nl >= hi then lo
    else if p >= nl || IdentEnd(s, p) == BackSpace(s, p, nl) then nl + 1
    else lo
  }

  /** extractSingleRawBlock: where the code lies in args, when args is one raw block and nothing else. */
  function SingleRawBlock(args: string): (r: Option<(nat, nat)>)
    ensures r.Some? ==> r.value.0 <= r.value.1 <= |args|
  {
    var lo := SkipSpace(args, 0);
    var hi := BackSpace(args, lo, |args|);
    if hi - lo < 6 || !FenceAt(args, lo) || !FenceAt(args, hi - 3) || HasFence(args, lo + 3, hi - 3) then None else
    var a := BodyStart(args, lo + 3, hi - 3);
    Some((a, if a < hi - 3 && args[hi - 4] == '\n' then hi - 4 else hi - 3))
  }
}
