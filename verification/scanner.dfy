/** The scanner of scan.go: one cursor, moved in place by every helper. */
module Scanning {
  import opened Text
  import opened Lexing
  import opened ScanMachine

  /** Attempt r turned reports b, k into b2, k2 and left the cursor at i2. */
  ghost predicate Did(s: string, r: Attempt, b: seq<D2Block>, k: seq<SkipSite>,
                      i2: nat, b2: seq<D2Block>, k2: seq<SkipSite>) {
    match r
    case Emitted(block) => b2 == b + [block] && k2 == k && i2 == block.end
    case Failed(site, n) => b2 == b && k2 == k + [site] && (i2 == n || |s| == n <= i2 <= |s| + 1)
    case NotACall(n) => b2 == b && k2 == k && i2 == n
  }

  /** Reports b, k so far, and what the machine reports from i with these regions open, add up to total. */
  ghost predicate Owes(s: string, i: nat, b: seq<D2Block>, k: seq<SkipSite>, stack: seq<Frame>, total: Output) {
    var out := Run(s, i, stack, MAX_SCAN_DEPTH);
    b + out.blocks == total.blocks && k + out.skipped == total.skipped
  }

  /** What the machine reports once a d2 name has turned out to be r. */
  ghost function AfterAttempt(s: string, r: Attempt, stack: seq<Frame>): Output
    requires stack != []
  {
    match r
    case Emitted(b) => Found(b, |stack| - 1, Run(s, b.end, stack, MAX_SCAN_DEPTH))
    case Failed(site, n) => Skipped(site, Run(s, n, stack, MAX_SCAN_DEPTH))
    case NotACall(n) => Run(s, n, stack, MAX_SCAN_DEPTH)
  }

  lemma RunCallIs(s: string, start: nat, afterName: nat, ctx: bool, stack: seq<Frame>)
    requires start < afterName <= |s| && stack != []
    ensures RunCall(s, start, afterName, ctx, stack, MAX_SCAN_DEPTH)
         == AfterAttempt(s, TryD2(s, start, afterName, ctx), stack)
  {
  }

  lemma StillOwes(s: string, r: Attempt, b: seq<D2Block>, k: seq<SkipSite>, stack: seq<Frame>,
                  total: Output, i2: nat, b2: seq<D2Block>, k2: seq<SkipSite>)
    requires stack != []
    requires var out := AfterAttempt(s, r, stack);
             b + out.blocks == total.blocks && k + out.skipped == total.skipped
    requires Did(s, r, b, k, i2, b2, k2)
    ensures Owes(s, i2, b2, k2, stack, total)
  {
    var out := Run(s, i2, stack, MAX_SCAN_DEPTH);
    if r.Emitted? {
      assert b2 + out.blocks == b + ([r.block] + out.blocks);
    } else if r.Failed? {
      assert k2 + out.skipped == k + ([r.site] + out.skipped);
    }
  }

  /** What comes of the parentheses that open at k: a refusal, or what their content gives. */
  predicate ParensGive(s: string, start: nat, k: nat, ctx: bool, r: Attempt)
    requires start < k < |s|
  {
    match ParenEnd(s, k + 1, 1)
    case None => r == Failed(SkipSite(start, UnbalancedOptions), |s|)
    case Some(e) => r == TryArgs(s, start, k + 1, e, ctx)
  }

  class Scanner {
    const src: string
    var i: nat
    var blocks: seq<D2Block>
    var skipped: seq<SkipSite>

    constructor (src: string)
      ensures this.src == src && i == 0 && blocks == [] && skipped == []
    {
      this.src := src;
      i, blocks, skipped := 0, [], [];
    }

    function Cur(): char
      reads this
    {
      At(src, i)
    }

    method SkipToEOL()
      requires i <= |src|
      modifies this`i
      ensures i == FindChar(src, '\n', old(i))
    {
      while i < |src| && src[i] != '\n'
        invariant old(i) <= i <= |src| && FindChar(src, '\n', i) == FindChar(src, '\n', old(i))
      {
        i := i + 1;
      }
    }

    method SkipLineComment()
      requires i <= |src| && LineCommentAt(src, i)
      modifies this`i
      ensures i == FindChar(src, '\n', old(i) + 2)
    {
      i := i + 2;
      SkipToEOL();
    }

    method SkipBlockComment()
      requires i <= |src| && BlockCommentAt(src, i)
      modifies this`i
      ensures i == PastComment(src, old(i) + 2)
    {
      i := i + 2;
      while i < |src|
        invariant old(i) + 2 <= i <= |src| && PastComment(src, i) == PastComment(src, old(i) + 2)
      {
        if CommentCloseAt(src, i) {
          i := i + 2;
          return;
        }
        i := i + 1;
      }
    }

    method SkipString()
      requires i < |src|
      modifies this`i
      ensures i == StringEnd(src, old(i) + 1)
    {
      i := i + 1;
      while i < |src|
        invariant i <= |src| + 1 && StringEnd(src, i) == StringEnd(src, old(i) + 1)
      {
        if src[i] == '\\' {
          i := i + 2;
        } else if src[i] == '"' {
          i := i + 1;
          return;
        } else {
          i := i + 1;
        }
      }
    }

    method SkipShortRaw()
      requires i < |src|
      modifies this`i
      ensures i == PastChar(src, '`', old(i) + 1)
    {
      i := i + 1;
      while i < |src|
        invariant old(i) + 1 <= i <= |src| && FindChar(src, '`', i) == FindChar(src, '`', old(i) + 1)
      {
        if src[i] == '`' {
          i := i + 1;
          return;
        }
        i := i + 1;
      }
    }

    method SkipRawBlock()
      requires i <= |src| && FenceAt(src, i)
      modifies this`i
      ensures i == PastFence(src, old(i) + 3)
    {
      i := i + 3;
      while i < |src|
        invariant old(i) + 3 <= i <= |src| && PastFence(src, i) == PastFence(src, old(i) + 3)
      {
        if FenceAt(src, i) {
          i := i + 3;
          return;
        }
        i := i + 1;
      }
    }

    /** The five cases both Typst loops start with: text that no call can sit in. */
    method SkipOpaque() returns (found: bool)
      requires i < |src|
      modifies this`i
      ensures found == OpaqueEnd(src, old(i)).Some?
      ensures i == if found then OpaqueEnd(src, old(i)).value else old(i)
    {
      if LineCommentAt(src, i) {
        SkipLineComment();
      } else if BlockCommentAt(src, i) {
        SkipBlockComment();
      } else if Cur() == '"' {
        SkipString();
      } else if FenceAt(src, i) {
        SkipRawBlock();
      } else if Cur() == '`' {
        SkipShortRaw();
      } else {
        return false;
      }
      return true;
    }

    method SkipBalancedParens() returns (ok: bool)
      requires i <= |src|
      modifies this`i
      ensures Cur'(old(i)) != '(' ==> !ok && i == old(i)
      ensures Cur'(old(i)) == '(' ==>
                var close := ParenEnd(src, old(i) + 1, 1);
                ok == close.Some? && if ok then i == close.value else |src| <= i <= |src| + 1
    {
      if Cur() != '(' {
        return false;
      }
      i := i + 1;
      var depth := 1;
      while i < |src|
        invariant i <= |src| + 1 && depth > 0
        invariant ParenEnd(src, i, depth) == ParenEnd(src, old(i) + 1, 1)
        decreases |src| + 1 - i
      {
        var opaqueText := SkipOpaque();
        if opaqueText {
        } else if Cur() == '(' {
          depth := depth + 1;
          i := i + 1;
        } else if Cur() == ')' {
          depth := depth - 1;
          i := i + 1;
          if depth == 0 {
            return true;
          }
        } else {
          i := i + 1;
        }
      }
      return false;
    }

    function Cur'(k: nat): char { At(src, k) }

    method SkipD2Brackets() returns (ok: bool)
      requires i <= |src|
      modifies this`i
      ensures Cur'(old(i)) != '[' ==> !ok && i == old(i)
      ensures Cur'(old(i)) == '[' ==>
                var close := BracketEnd(src, old(i) + 1, 1, true);
                ok == close.Some? && if ok then i == close.value else |src| <= i <= |src| + 1
    {
      if Cur() != '[' {
        return false;
      }
      i := i + 1;
      var depth := 1;
      var lineBlank := true;
      while i < |src|
        invariant i <= |src| + 1 && depth > 0
        invariant BracketEnd(src, i, depth, lineBlank) == BracketEnd(src, old(i) + 1, 1, true)
        decreases |src| + 1 - i
      {
        var c := Cur();
        if c == '"' {
          SkipString();
          lineBlank := false;
        } else if c == '#' && lineBlank {
          SkipToEOL();
        } else if c == '\n' {
          i := i + 1;
          lineBlank := true;
        } else if c == ' ' || c == '\t' || c == '\r' {
          i := i + 1;
        } else if c == '[' {
          depth := depth + 1;
          i := i + 1;
          lineBlank := false;
        } else if c == ']' {
          depth := depth - 1;
          i := i + 1;
          if depth == 0 {
            return true;
          }
          lineBlank := false;
        } else {
          i := i + 1;
          lineBlank := false;
        }
      }
      return false;
    }

    /** The diagram block at the cursor, which closes the call that began at start. */
    method Diagram(start: nat, options: string, codeContext: bool)
      requires start < i < |src| && src[i] == '['
      modifies this
      ensures Did(src, TryDiagram(src, start, old(i), options, codeContext), old(blocks), old(skipped),
                  i, blocks, skipped)
    {
      var codeOpen := i + 1;
      var ok := SkipD2Brackets();
      if !ok {
        skipped := skipped + [SkipSite(start, UnbalancedDiagram)];
        return;
      }
      blocks := blocks + [D2Block(start, i, options, src[codeOpen..i - 1], codeContext)];
    }

    /** After the closing parenthesis of a call: its only part, or options and a diagram. */
    method Arguments(start: nat, argsOpen: nat, codeContext: bool)
      requires start < argsOpen < i <= |src|
      modifies this
      ensures Did(src, TryArgs(src, start, argsOpen, old(i), codeContext), old(blocks), old(skipped),
                  i, blocks, skipped)
    {
      var args := src[argsOpen..i - 1];
      var raw := SingleRawBlock(args);
      if raw.Some? {
        blocks := blocks + [D2Block(start, i, "", args[raw.value.0..raw.value.1], codeContext)];
      } else if Cur() != '[' {
        skipped := skipped + [SkipSite(start, NoDiagramBlock)];
      } else {
        Diagram(start, args, codeContext);
      }
    }

    /** The scan stays on course: nothing the machine still owes for `total` is lost or added. */
    ghost predicate OnCourse(stack: seq<Frame>, total: Output)
      reads this
    {
      i <= |src| + 1 && Owes(src, i, blocks, skipped, stack, total)
    }

    /** The parenthesised part at the cursor of the call that began at start. */
    method Parens(start: nat, codeContext: bool, ghost r: Attempt)
      requires start < i < |src| && src[i] == '(' && ParensGive(src, start, i, codeContext, r)
      modifies this
      ensures Did(src, r, old(blocks), old(skipped), i, blocks, skipped)
    {
      var argsOpen := i + 1;
      var ok := SkipBalancedParens();
      if ok {
        assert r == TryArgs(src, start, argsOpen, i, codeContext);
        Arguments(start, argsOpen, codeContext);
      } else {
        skipped := skipped + [SkipSite(start, UnbalancedOptions)];
      }
    }

    /** A d2 name from start to afterName. On failure the cursor stays where the skipping stopped. */
    method TryD2At(start: nat, afterName: nat, codeContext: bool) returns (ghost r: Attempt)
      requires start < afterName <= |src|
      modifies this
      ensures r == TryD2(src, start, afterName, codeContext)
      ensures Did(src, r, old(blocks), old(skipped), i, blocks, skipped)
    {
      r := TryD2(src, start, afterName, codeContext);
      i := afterName;
      if Cur() == '(' {
        Parens(start, codeContext, r);
      } else if Cur() == '[' {
        Diagram(start, "", codeContext);
      }
    }

    method TryCall(start: nat, afterName: nat, codeContext: bool, ghost stack: seq<Frame>, ghost total: Output)
      requires start == i < afterName <= |src| && stack != [] && OnCourse(stack, total)
      requires Act(src, i, stack[|stack| - 1], |stack| <= MAX_SCAN_DEPTH) == Call(start, afterName, codeContext)
      modifies this
      ensures old(i) < i && OnCourse(stack, total)
    {
      Moves(src, i, stack, MAX_SCAN_DEPTH);
      ghost var b, k := blocks, skipped;
      ghost var r := TryD2At(start, afterName, codeContext);
      RunCallIs(src, start, afterName, codeContext, stack);
      StillOwes(src, r, b, k, stack, total, i, blocks, skipped);
    }

    /** Walks one region, above the regions `below`, to its close or to the end of the text. */
    method ScanRegion(mode: Mode, stop: char, depth: nat, ghost below: seq<Frame>, ghost total: Output)
      requires |below| == depth <= MAX_SCAN_DEPTH
      requires stop in {'\0', ']', ')'}
      requires OnCourse(below + [Frame(mode, stop)], total)
      modifies this
      ensures old(i) <= i && OnCourse(below, total)
      ensures stop == '\0' ==> i >= |src|
      decreases |src| + 1 - i, 1
    {
      ghost var stack := below + [Frame(mode, stop)];
      while i < |src|
        invariant old(i) <= i && OnCourse(stack, total)
        decreases |src| + 1 - i
      {
        ghost var act := Act(src, i, stack[depth], |stack| <= MAX_SCAN_DEPTH);
        Moves(src, i, stack, MAX_SCAN_DEPTH);
        var opaqueText := SkipOpaque();
        if opaqueText {
          assert act == Advance(i);
        } else if stop != '\0' && Cur() == stop {
          i := i + 1;
          assert act == Close(i) && stack[..depth] == below;
          return;
        } else if mode == Markup && Cur() == '#' {
          assert act == HashAction(src, i, depth < MAX_SCAN_DEPTH);
          MarkupHash(depth, stack, total);
        } else if mode == Code && AtIdentStart(src, i) {
          CodeIdent(stack, total);
        } else if mode == Code && HashD2At(src, i) && !IsIdentChar(At(src, i + 3)) {
          assert act == Call(i, i + 3, true);
          TryCall(i, i + 3, true, stack, total);
        } else if Cur() == '[' && depth < MAX_SCAN_DEPTH {
          i := i + 1;
          assert act == Open(Frame(Markup, ']'), i);
          ScanRegion(Markup, ']', depth + 1, stack, total);
        } else if mode == Code && Cur() == '(' && depth < MAX_SCAN_DEPTH {
          i := i + 1;
          assert act == Open(Frame(Code, ')'), i);
          ScanRegion(Code, ')', depth + 1, stack, total);
        } else {
          i := i + 1;
          assert act == Advance(i);
        }
      }
    }

    /** A hash in markup, in the innermost region of `stack`. */
    method MarkupHash(depth: nat, ghost stack: seq<Frame>, ghost total: Output)
      requires |stack| == depth + 1 && depth <= MAX_SCAN_DEPTH
      requires i < |src| && OnCourse(stack, total)
      requires Act(src, i, stack[depth], |stack| <= MAX_SCAN_DEPTH) == HashAction(src, i, depth < MAX_SCAN_DEPTH)
      modifies this
      ensures old(i) < i && OnCourse(stack, total)
      decreases |src| + 1 - i, 0
    {
      var hash := i;
      var j := i + 1;
      while j < |src| && IsIdentChar(src[j])
        invariant i + 1 <= j <= |src| && IdentEnd(src, j) == IdentEnd(src, i + 1)
      {
        j := j + 1;
      }
      ghost var act := HashAction(src, i, depth < MAX_SCAN_DEPTH);
      Moves(src, i, stack, MAX_SCAN_DEPTH);
      if NamesD2(src, hash + 1, j) {
        assert act == Call(hash, j, false);
        TryCall(hash, j, false, stack, total);
      } else if j == hash + 1 {
        assert act == Advance(i + 1);
        i := i + 1;
      } else {
        i := j;
        if Cur() == '(' && depth < MAX_SCAN_DEPTH {
          i := i + 1;
          assert act == Open(Frame(Code, ')'), i);
          ScanRegion(Code, ')', depth + 1, stack, total);
        }
      }
    }

    /** A name in code, in the innermost region of `stack`. */
    method CodeIdent(ghost stack: seq<Frame>, ghost total: Output)
      requires i < |src| && AtIdentStart(src, i) && OnCourse(stack, total)
      requires stack != [] && stack[|stack| - 1].mode == Code && !IsIdentChar(stack[|stack| - 1].stop)
      modifies this
      ensures old(i) < i && OnCourse(stack, total)
    {
      Moves(src, i, stack, MAX_SCAN_DEPTH);
      var start := i;
      var j := i;
      while j < |src| && IsIdentChar(src[j])
        invariant i <= j <= |src| && IdentEnd(src, j) == IdentEnd(src, i)
      {
        j := j + 1;
      }
      if NamesD2(src, start, j) {
        TryCall(start, j, true, stack, total);
        return;
      }
      i := j;
    }
  }

  /** scanD2Calls. */
  method ScanD2Calls(src: string) returns (blocks: seq<D2Block>, skipped: seq<SkipSite>)
    ensures blocks == Scan(src).blocks && skipped == Scan(src).skipped
  {
    var s := new Scanner(src);
    assert [] + [DOCUMENT] == [DOCUMENT];
    s.ScanRegion(Markup, '\0', 0, [], Scan(src));
    blocks, skipped := s.blocks, s.skipped;
  }
}
