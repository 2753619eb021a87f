/** What every reported call site looks like, on every input. */
module Blocks {
  import opened Text
  import opened Lexing
  import opened ScanMachine

  /** A d2 name that can begin a call: `#d2`, or in code also a bare `d2` that continues nothing. */
  predicate D2NameAt(s: string, start: nat, afterName: nat, ctx: bool) {
    && start < afterName <= |s|
    && (|| (afterName == start + 3 && HashD2At(s, start))
        || (ctx && NamesD2(s, start, afterName) && !FollowsName(s, start)))
  }

  ghost predicate SliceAt(code: string, s: string, a: nat) {
    a + |code| <= |s| && code == s[a..a + |code|]
  }

  /** code is a contiguous piece of s that begins after lo and ends before hi - 1. */
  ghost predicate SliceInside(code: string, s: string, lo: nat, hi: nat) {
    exists a: nat :: lo < a && a + |code| < hi && SliceAt(code, s, a)
  }

  /** Just past the name: a d2 name from start to n, followed by an opening delimiter. */
  predicate OpensAt(s: string, start: nat, n: nat, ctx: bool) {
    D2NameAt(s, start, n, ctx) && At(s, n) in {'(', '['}
  }

  /** The span holds a whole call, and the code is a contiguous piece of it. */
  ghost predicate WellFormed(s: string, b: D2Block) {
    && b.start < b.end <= |s|
    && (exists n: nat :: OpensAt(s, b.start, n, b.codeContext) && n + 1 < b.end)
    && s[b.end - 1] in {')', ']'}
    && SliceInside(b.code, s, b.start, b.end)
  }

  /** The reports of a scan from k: in bounds, in document order and disjoint. */
  ghost predicate Orderly(s: string, k: nat, out: Output) {
    && (forall x :: 0 <= x < |out.blocks| ==> k <= out.blocks[x].start && WellFormed(s, out.blocks[x]))
    && (forall x, y :: 0 <= x < y < |out.blocks| ==> out.blocks[x].end <= out.blocks[y].start)
    && (forall x :: 0 <= x < |out.skipped| ==> k <= out.skipped[x].offset < |s|)
    && (forall x, y :: 0 <= x < y < |out.skipped| ==> out.skipped[x].offset < out.skipped[y].offset)
  }

  lemma CallNamesD2(s: string, k: nat, f: Frame, room: bool)
    requires k < |s|
    ensures var a := Act(s, k, f, room); a.Call? ==> D2NameAt(s, a.start, a.afterName, a.codeContext)
  {
  }

  lemma DiagramIsWellFormed(s: string, start: nat, n: nat, k: nat, options: string, ctx: bool)
    requires OpensAt(s, start, n, ctx) && n <= k < |s| && s[k] == '['
    ensures var r := TryDiagram(s, start, k, options, ctx); r.Emitted? ==> WellFormed(s, r.block)
  {
    match BracketEnd(s, k + 1, 1, true)
    case None =>
    case Some(e) =>
      assert SliceAt(s[k + 1..e - 1], s, k + 1);
  }

  lemma SliceOfSlice(s: string, lo: nat, hi: nat, a: nat, b: nat)
    requires lo <= hi <= |s| && a <= b <= hi - lo
    ensures SliceAt(s[lo..hi][a..b], s, lo + a)
  {
    var t := s[lo..hi];
    assert forall k :: a <= k < b ==> t[k] == s[lo + k];
    assert t[a..b] == s[lo + a..lo + b];
  }

  lemma ArgsAreWellFormed(s: string, start: nat, n: nat, e: nat, ctx: bool)
    requires OpensAt(s, start, n, ctx) && n + 1 < e <= |s| && s[e - 1] == ')'
    ensures var r := TryArgs(s, start, n + 1, e, ctx); r.Emitted? ==> WellFormed(s, r.block)
  {
    match SingleRawBlock(s[n + 1..e - 1])
    case Some(body) => SliceOfSlice(s, n + 1, e - 1, body.0, body.1);
    case None =>
      if At(s, e) == '[' {
        DiagramIsWellFormed(s, start, n, e, s[n + 1..e - 1], ctx);
      }
  }

  lemma EmittedIsWellFormed(s: string, start: nat, n: nat, ctx: bool)
    requires D2NameAt(s, start, n, ctx)
    ensures var r := TryD2(s, start, n, ctx); r.Emitted? ==> WellFormed(s, r.block)
  {
    if At(s, n) == '(' {
      match ParenEnd(s, n + 1, 1)
      case None =>
      case Some(e) => ArgsAreWellFormed(s, start, n, e, ctx);
    } else if At(s, n) == '[' {
      DiagramIsWellFormed(s, start, n, n, "", ctx);
    }
  }

  lemma PrependSkip(s: string, k: nat, site: SkipSite, next: nat, out: Output)
    requires k <= site.offset < next <= |s| && Orderly(s, next, out)
    ensures Orderly(s, k, Skipped(site, out))
  {
  }

  lemma Prepend(s: string, k: nat, b: D2Block, depth: nat, out: Output)
    requires WellFormed(s, b) && k <= b.start && Orderly(s, b.end, out)
    ensures Orderly(s, k, Found(b, depth, out))
  {
  }

  /** The reports of a scan from a d2 name, given those of the scan that goes on from it. */
  lemma CallIsOrderly(s: string, k: nat, n: nat, ctx: bool, stack: seq<Frame>, cap: nat)
    requires D2NameAt(s, k, n, ctx) && stack != []
    requires var r := TryD2(s, k, n, ctx);
             var next := if r.Emitted? then r.block.end else r.next;
             Orderly(s, next, Run(s, next, stack, cap))
    ensures Orderly(s, k, RunCall(s, k, n, ctx, stack, cap))
  {
    EmittedIsWellFormed(s, k, n, ctx);
    var r := TryD2(s, k, n, ctx);
    var next := if r.Emitted? then r.block.end else r.next;
    var out := Run(s, next, stack, cap);
    if r.Emitted? {
      assert RunCall(s, k, n, ctx, stack, cap) == Found(r.block, |stack| - 1, out);
      Prepend(s, k, r.block, |stack| - 1, out);
    } else if r.Failed? {
      assert RunCall(s, k, n, ctx, stack, cap) == Skipped(r.site, out);
      PrependSkip(s, k, r.site, next, out);
    } else {
      assert RunCall(s, k, n, ctx, stack, cap) == out;
    }
  }

  /** Blocks are in bounds, ordered, disjoint and shaped like calls, whatever the source. */
  lemma {:induction false} RunIsOrderly(s: string, k: nat, stack: seq<Frame>, cap: nat)
    ensures Orderly(s, k, Run(s, k, stack, cap))
    decreases if k <= |s| then |s| - k else 0
  {
    if k < |s| && stack != [] {
      var depth := |stack| - 1;
      Moves(s, k, stack, cap);
      match Act(s, k, stack[depth], |stack| <= cap)
      case Advance(n) => RunIsOrderly(s, n, stack, cap);
      case Close(n) => RunIsOrderly(s, n, stack[..depth], cap);
      case Open(f, n) => RunIsOrderly(s, n, stack + [f], cap);
      case Call(start, afterName, ctx) =>
        CallNamesD2(s, k, stack[depth], |stack| <= cap);
        var r := TryD2(s, start, afterName, ctx);
        RunIsOrderly(s, if r.Emitted? then r.block.end else r.next, stack, cap);
        CallIsOrderly(s, start, afterName, ctx, stack, cap);
    }
  }

  /** How many regions are ever open at once, the document not counted. */
  function Deepest(s: string, k: nat, stack: seq<Frame>, cap: nat): (d: nat)
    ensures |stack| <= d + 1
    decreases if k <= |s| then |s| - k else 0
  {
    var here := if stack == [] then 0 else |stack| - 1;
    if k >= |s| || stack == [] then here else
    var later :=
      match Act(s, k, stack[here], |stack| <= cap)
      case Advance(n) => Deepest(s, n, stack, cap)
      case Close(n) => Deepest(s, n, stack[..here], cap)
      case Open(f, n) => Deepest(s, n, stack + [f], cap)
      case Call(start, afterName, ctx) =>
        match TryD2(s, start, afterName, ctx)
        case Emitted(b) => Deepest(s, b.end, stack, cap)
        case Failed(_, n) => Deepest(s, n, stack, cap)
        case NotACall(n) => Deepest(s, n, stack, cap);
    if later > here then later else here
  }

  /** The cap is a real bound on nesting. */
  lemma {:induction false} DepthIsCapped(s: string, k: nat, stack: seq<Frame>, cap: nat)
    requires |stack| <= cap + 1
    ensures Deepest(s, k, stack, cap) <= cap
    decreases if k <= |s| then |s| - k else 0
  {
    if k < |s| && stack != [] {
      var here := |stack| - 1;
      match Act(s, k, stack[here], |stack| <= cap)
      case Advance(n) => DepthIsCapped(s, n, stack, cap);
      case Close(n) => DepthIsCapped(s, n, stack[..here], cap);
      case Open(f, n) => DepthIsCapped(s, n, stack + [f], cap);
      case Call(start, afterName, ctx) =>
        match TryD2(s, start, afterName, ctx)
        case Emitted(b) => DepthIsCapped(s, b.end, stack, cap);
        case Failed(_, n) => DepthIsCapped(s, n, stack, cap);
        case NotACall(n) => DepthIsCapped(s, n, stack, cap);
    }
  }

  /** Room makes a difference only where a region would be opened. */
  lemma RoomOnlyOpens(s: string, k: nat, f: Frame)
    requires k < |s|
    ensures var free, full := Act(s, k, f, true), Act(s, k, f, false);
            free.Open? || free == full
  {
  }

  /** On a source that a larger cap never nests beyond `cap`, the smaller cap changes nothing. */
  lemma {:induction false} CapIsInvisible(s: string, k: nat, stack: seq<Frame>, cap: nat, large: nat)
    requires cap <= large && Deepest(s, k, stack, large) <= cap
    ensures Run(s, k, stack, cap) == Run(s, k, stack, large)
    decreases if k <= |s| then |s| - k else 0
  {
    if k < |s| && stack != [] {
      var here := |stack| - 1;
      RoomOnlyOpens(s, k, stack[here]);
      Moves(s, k, stack, cap);
      Moves(s, k, stack, large);
      match Act(s, k, stack[here], |stack| <= large)
      case Advance(n) => CapIsInvisible(s, n, stack, cap, large);
      case Close(n) => CapIsInvisible(s, n, stack[..here], cap, large);
      case Open(f, n) => CapIsInvisible(s, n, stack + [f], cap, large);
      case Call(start, afterName, ctx) =>
        match TryD2(s, start, afterName, ctx)
        case Emitted(b) => CapIsInvisible(s, b.end, stack, cap, large);
        case Failed(_, n) => CapIsInvisible(s, n, stack, cap, large);
        case NotACall(n) => CapIsInvisible(s, n, stack, cap, large);
    }
  }
}
