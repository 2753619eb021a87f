/** The scan as an explicit stack machine: what scanRegion's recursion has to agree with. */
module ScanMachine {
  import opened Text
  import opened Lexing

  const MAX_SCAN_DEPTH := 256

  datatype Mode = Markup | Code

  /** One open region: its mode and the byte that closes it, NUL for the whole document. */
  datatype Frame = Frame(mode: Mode, stop: char)

  datatype Reason = UnbalancedOptions | NoDiagramBlock | UnbalancedDiagram

  datatype SkipSite = SkipSite(offset: nat, reason: Reason)

  /** A diagram call. `options` is the text that parseOptions reads. */
  datatype D2Block = D2Block(start: nat, end: nat, options: string, code: string, codeContext: bool)

  /** What a d2 name at a call position turns out to be. */
  datatype Attempt =
    | Emitted(block: D2Block)
    | Failed(site: SkipSite, next: nat)
    | NotACall(next: nat)

  /** A diagram block opening at k, the last part of a call. */
  function TryDiagram(s: string, start: nat, k: nat, options: string, ctx: bool): (r: Attempt)
    requires start < k < |s|
    ensures r.Emitted? ==> r.block.start == start && r.block.codeContext == ctx && k < r.block.end <= |s|
    ensures r.Failed? ==> r.site.offset == start && r.next == |s|
    ensures !r.NotACall?
  {
    match BracketEnd(s, k + 1, 1, true)
    case None => Failed(SkipSite(start, UnbalancedDiagram), |s|)
    case Some(e) => Emitted(D2Block(start, e, options, s[k + 1..e - 1], ctx))
  }

  /** A call whose parentheses hold s[open..e - 1]: a raw block, or options and a diagram. */
  function TryArgs(s: string, start: nat, open: nat, e: nat, ctx: bool): (r: Attempt)
    requires start < open < e <= |s|
    ensures r.Emitted? ==> r.block.start == start && r.block.codeContext == ctx && e <= r.block.end <= |s|
    ensures r.Failed? ==> r.site.offset == start && e <= r.next <= |s|
    ensures !r.NotACall?
  {
    var args := s[open..e - 1];
    match SingleRawBlock(args)
    case Some(body) => Emitted(D2Block(start, e, "", args[body.0..body.1], ctx))
    case None =>
      if At(s, e) == '[' then TryDiagram(s, start, e, args, ctx)
      else Failed(SkipSite(start, NoDiagramBlock), e)
  }

  /** The parenthesised part of a call, opening at k. */
  function TryParens(s: string, start: nat, k: nat, ctx: bool): (r: Attempt)
    requires start < k < |s|
    ensures r.Emitted? ==> r.block.start == start && r.block.codeContext == ctx && k < r.block.end <= |s|
    ensures r.Failed? ==> r.site.offset == start && k < r.next <= |s|
    ensures !r.NotACall?
  {
    match ParenEnd(s, k + 1, 1)
    case None => Failed(SkipSite(start, UnbalancedOptions), |s|)
    case Some(e) => TryArgs(s, start, k + 1, e, ctx)
  }

  /** What the d2 name from start to afterName turns out to be. */
  function TryD2(s: string, start: nat, afterName: nat, ctx: bool): (r: Attempt)
    requires start < afterName <= |s|
    ensures r.Emitted? ==> r.block.start == start && r.block.codeContext == ctx && afterName < r.block.end <= |s|
    ensures r.Failed? ==> r.site.offset == start && afterName < r.next <= |s|
    ensures r.NotACall? ==> r.next == afterName
  {
    if At(s, afterName) == '(' then TryParens(s, start, afterName, ctx)
    else if At(s, afterName) == '[' then TryDiagram(s, start, afterName, "", ctx)
    else NotACall(afterName)
  }

  /** Where an attempt leaves the cursor. */
  function CursorAfter(r: Attempt): nat {
    match r
    case Emitted(b) => b.end
    case Failed(_, next) => next
    case NotACall(next) => next
  }

  /** The cursor stays just after the name exactly when no opening delimiter follows it: a call that
      is recognised but not extracted never leaves it there. */
  lemma CursorStaysExactly(s: string, start: nat, afterName: nat, ctx: bool)
    requires start < afterName <= |s|
    ensures CursorAfter(TryD2(s, start, afterName, ctx)) == afterName <==> At(s, afterName) !in {'(', '['}
  {}

  /** Such a call, and where it leaves the cursor. */
  lemma UnclosedCall()
    ensures TryD2("#d2(", 0, 3, false) == Failed(SkipSite(0, UnbalancedOptions), 4)
  {}

  /** One move of the scanner. */
  datatype Action =
    | Advance(next: nat)
    | Close(next: nat)
    | Open(frame: Frame, next: nat)
    | Call(start: nat, afterName: nat, codeContext: bool)

  predicate FollowsName(s: string, k: nat)
    requires k <= |s|
  {
    k > 0 && (IsIdentChar(s[k - 1]) || s[k - 1] == '.')
  }

  predicate AtIdentStart(s: string, k: nat)
    requires k < |s|
  {
    IsIdentChar(s[k]) && !FollowsName(s, k)
  }

  /** s[a..b] == "d2". */
  predicate NamesD2(s: string, a: nat, b: nat)
    requires a <= b <= |s|
  {
    b == a + 2 && s[a] == 'd' && s[a + 1] == '2'
  }

  /** A hash in markup: a call, an argument list to enter, or a name to pass over. */
  function HashAction(s: string, k: nat, room: bool): (a: Action)
    requires k < |s|
  {
    var j := IdentEnd(s, k + 1);
    if NamesD2(s, k + 1, j) then Call(k, j, false)
    else if j == k + 1 then Advance(k + 1)
    else if At(s, j) == '(' && room then Open(Frame(Code, ')'), j + 1)
    else Advance(j)
  }

  /** The move at k inside region f; `room` says that another region may be opened. */
  function Act(s: string, k: nat, f: Frame, room: bool): (a: Action)
    requires k < |s|
    ensures a.Call? ==> k == a.start < a.afterName <= |s|
    ensures !a.Call? ==> k < a.next <= |s| + 1
    ensures a.Open? ==> room
  {
    match OpaqueEnd(s, k)
    case Some(e) => Advance(e)
    case None =>
      if f.stop != '\0' && s[k] == f.stop then Close(k + 1)
      else if f.mode.Markup? && s[k] == '#' then HashAction(s, k, room)
      else if f.mode.Code? && AtIdentStart(s, k) then
        var j := IdentEnd(s, k);
        if NamesD2(s, k, j) then Call(k, j, true) else Advance(j)
      else if f.mode.Code? && HashD2At(s, k) && !IsIdentChar(At(s, k + 3)) then Call(k, k + 3, true)
      else if s[k] == '[' && room then Open(Frame(Markup, ']'), k + 1)
      else if f.mode.Code? && s[k] == '(' && room then Open(Frame(Code, ')'), k + 1)
      else Advance(k + 1)
  }

  /** Everything a scan reports, with the nesting depth at which each block was found. */
  datatype Output = Output(blocks: seq<D2Block>, depths: seq<nat>, skipped: seq<SkipSite>)

  const NOTHING := Output([], [], [])

  function Found(b: D2Block, depth: nat, out: Output): Output {
    Output([b] + out.blocks, [depth] + out.depths, out.skipped)
  }

  function Skipped(site: SkipSite, out: Output): Output {
    out.(skipped := [site] + out.skipped)
  }

  /** The scan of s from k with these regions open, innermost last. */
  function Run(s: string, k: nat, stack: seq<Frame>, cap: nat): (out: Output)
    ensures |out.depths| == |out.blocks|
    decreases if k <= |s| then |s| - k else 0, 2
  {
    if k >= |s| || stack == [] then NOTHING else Move(s, k, stack, cap)
  }

  /** The scan from its next move on. */
  function Move(s: string, k: nat, stack: seq<Frame>, cap: nat): (out: Output)
    requires k < |s| && stack != []
    ensures |out.depths| == |out.blocks|
    decreases |s| - k, 1
  {
    match Act(s, k, stack[|stack| - 1], |stack| <= cap)
    case Advance(n) => Run(s, n, stack, cap)
    case Close(n) => Run(s, n, stack[..|stack| - 1], cap)
    case Open(f, n) => Run(s, n, stack + [f], cap)
    case Call(start, afterName, ctx) => RunCall(s, start, afterName, ctx, stack, cap)
  }

  /** The scan from a d2 name on. */
  function RunCall(s: string, start: nat, afterName: nat, ctx: bool, stack: seq<Frame>, cap: nat): (out: Output)
    requires start < afterName <= |s| && stack != []
    ensures |out.depths| == |out.blocks|
    decreases |s| - start, 0
  {
    match TryD2(s, start, afterName, ctx)
    case Emitted(b) => Found(b, |stack| - 1, Run(s, b.end, stack, cap))
    case Failed(site, n) => Skipped(site, Run(s, n, stack, cap))
    case NotACall(n) => Run(s, n, stack, cap)
  }

  /** One move of the machine. */
  lemma Moves(s: string, k: nat, stack: seq<Frame>, cap: nat)
    requires k < |s| && stack != []
    ensures var a := Act(s, k, stack[|stack| - 1], |stack| <= cap);
            Run(s, k, stack, cap) ==
            match a
            case Advance(n) => Run(s, n, stack, cap)
            case Close(n) => Run(s, n, stack[..|stack| - 1], cap)
            case Open(f, n) => Run(s, n, stack + [f], cap)
            case Call(start, afterName, ctx) => RunCall(s, start, afterName, ctx, stack, cap)
  {
  }

  const DOCUMENT := Frame(Markup, '\0')

  function Scan(s: string): Output {
    Run(s, 0, [DOCUMENT], MAX_SCAN_DEPTH)
  }
}
