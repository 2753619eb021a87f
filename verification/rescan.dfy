/** Scanning the document that Preprocess produces finds no call in it. */
module Rescan {
  import opened Text
  import opened Lexing
  import opened ScanMachine
  import opened Blocks
  import opened Preprocessing
  import opened Shifting
  import opened Silence

  /** The only regions a scan ever opens. */
  ghost predicate Regions(stack: seq<Frame>) {
    forall f <- stack :: f == DOCUMENT || f == Frame(Markup, ']') || f == CODE
  }

  lemma TopIsRegion(stack: seq<Frame>)
    requires stack != [] && Regions(stack)
    ensures var f := stack[|stack| - 1]; f == DOCUMENT || f == Frame(Markup, ']') || f == CODE
  {
    assert stack[|stack| - 1] in stack;
  }

  predicate CodeOnTop(stack: seq<Frame>)
    requires stack != []
  {
    stack[|stack| - 1].mode.Code?
  }

  /** Wherever it is read in code, this text reports nothing and closes one region. */
  ghost predicate SilentTail(tail: string, stack: seq<Frame>, cap: nat) {
    forall t, n: nat :: Reads(t, n, tail) ==> Run(t, n, stack + [CODE], cap) == Run(t, n + |tail|, stack, cap)
  }

  lemma TailStaysSilent(b64: string, words: string, kind: string, width: Option<string>, pad: Option<string>,
                        stack: seq<Frame>, cap: nat)
    requires stack != [] && Base64(b64) && PlainText(words) && Base64(kind)
    requires PlainOption(width) && PlainOption(pad) && |stack| - 1 + Levels(pad) <= cap
    ensures SilentTail(Tail(b64, words, kind, width, pad), stack, cap)
  {
    var (tail, inner) := (Tail(b64, words, kind, width, pad), stack + [CODE]);
    assert inner[..|inner| - 1] == stack;
    forall t, n: nat | Reads(t, n, tail) ensures Run(t, n, inner, cap) == Run(t, n + |tail|, stack, cap) {
      TailIsSilent(t, n, tail, b64, words, kind, width, pad, inner, cap);
    }
  }

  lemma TailCloses(b64: string, words: string, kind: string, width: Option<string>, pad: Option<string>)
    ensures var tail := Tail(b64, words, kind, width, pad); tail != "" && tail[|tail| - 1] == ')'
  {
    var image := ImageCall(b64, words, kind, width);
    assert image[|image| - 1] == ')';
  }

  /** A replacement is a word, a parenthesis and a silent rest, after a hash in markup. */
  lemma PieceParts(piece: string, ctx: bool, stack: seq<Frame>, cap: nat) returns (pad: Option<string>, tail: string)
    requires stack != [] && Fits(piece, ctx, |stack| - 1, cap)
    ensures piece == (if ctx then "" else "#") + (Word(pad) + ("(" + tail))
    ensures SilentTail(tail, stack, cap) && |stack| <= cap && tail != "" && tail[|tail| - 1] == ')'
  {
    var b64, words, kind, width, pad0 :| FitsAs(piece, ctx, |stack| - 1, cap, b64, words, kind, width, pad0);
    pad, tail := pad0, Tail(b64, words, kind, width, pad0);
    TailStaysSilent(b64, words, kind, width, pad, stack, cap);
    TailCloses(b64, words, kind, width, pad);
  }

  lemma WordEnds(t: string, k: nat, pad: Option<string>, rest: string)
    requires Reads(t, k, Word(pad) + ("(" + rest))
    ensures IdentEnd(t, k) == k + |Word(pad)| && Reads(t, k + |Word(pad)|, "(" + rest)
    ensures At(t, k + |Word(pad)|) == '(' && |Word(pad)| > 2
    ensures Reads(t, k + |Word(pad)| + 1, rest)
  {
    ReadsBoth(t, k, Word(pad), "(" + rest);
    ReadsBoth(t, k + |Word(pad)|, "(", rest);
    ReadsOne(t, k + |Word(pad)|, '(');
    NameEnds(t, k, Word(pad));
  }

  lemma HashedWordOpens(t: string, k: nat, pad: Option<string>, tail: string, stack: seq<Frame>, cap: nat)
    requires stack != [] && Regions(stack) && !CodeOnTop(stack) && |stack| <= cap
    requires Reads(t, k, "#" + (Word(pad) + ("(" + tail)))
    ensures var n := k + 2 + |Word(pad)|; Run(t, k, stack, cap) == Run(t, n, stack + [CODE], cap) && Reads(t, n, tail)
  {
    TopIsRegion(stack);
    ReadsBoth(t, k, "#", Word(pad) + ("(" + tail));
    ReadsOne(t, k, '#');
    WordEnds(t, k + 1, pad, tail);
    assert Act(t, k, stack[|stack| - 1], |stack| <= cap) == Open(CODE, k + 2 + |Word(pad)|);
    Moves(t, k, stack, cap);
  }

  /** In code, entered at k within a name that the word ends. */
  lemma CodeCallIsSilent(t: string, k: nat, w: nat, pad: Option<string>, tail: string, stack: seq<Frame>, cap: nat)
    requires InCode(stack) && |stack| <= cap && SilentTail(tail, stack, cap)
    requires k <= w && Reads(t, w, Word(pad) + ("(" + tail)) && k <= |t| && IdentEnd(t, k) == IdentEnd(t, w)
    ensures Run(t, k, stack, cap) == Run(t, w + |Word(pad)| + 1 + |tail|, stack, cap)
  {
    WordEnds(t, w, pad, tail);
    NameIsSilent(t, k, stack, cap);
    OpenIsSilent(t, w + |Word(pad)|, stack, cap);
  }

  /** At w in t stands a piece that the scanner passes silently from these regions back to them,
      and that a name before it can only run on into, never turn into a call. */
  ghost predicate Passes(t: string, w: nat, piece: string, stack: seq<Frame>, cap: nat)
    requires stack != []
  {
    && w + |piece| <= |t| && 0 < |piece|
    && (if CodeOnTop(stack) then t[w] == 'i' || t[w] == 'p' else t[w] == '#')
    && !FollowsName(t, w + |piece|)
    && (CodeOnTop(stack) ==>
          forall k: nat :: k <= w && IdentEnd(t, k) == IdentEnd(t, w) ==>
            Run(t, k, stack, cap) == Run(t, w + |piece|, stack, cap))
    && (!CodeOnTop(stack) ==> Run(t, w, stack, cap) == Run(t, w + |piece|, stack, cap))
  }

  /** A kind of replacement, told by its text, mode and depth, that always passes. */
  ghost predicate Sound(fits: (string, bool, nat) -> bool, cap: nat) {
    forall t, w: nat, piece, stack {:trigger Passes(t, w, piece, stack, cap)} ::
      stack != [] && Regions(stack) && fits(piece, CodeOnTop(stack), |stack| - 1) && Reads(t, w, piece)
      ==> Passes(t, w, piece, stack, cap)
  }

  lemma CodeCallPasses(t: string, w: nat, pad: Option<string>, tail: string, stack: seq<Frame>, cap: nat)
    requires stack != [] && Regions(stack) && CodeOnTop(stack) && |stack| <= cap && SilentTail(tail, stack, cap)
    requires Reads(t, w, Word(pad) + ("(" + tail)) && tail != "" && tail[|tail| - 1] == ')'
    ensures Passes(t, w, Word(pad) + ("(" + tail), stack, cap)
  {
    TopIsRegion(stack);
    ReadsEnds(t, w, Word(pad) + ("(" + tail));
    forall k: nat | k <= w && IdentEnd(t, k) == IdentEnd(t, w)
      ensures Run(t, k, stack, cap) == Run(t, w + |Word(pad) + ("(" + tail)|, stack, cap)
    {
      CodeCallIsSilent(t, k, w, pad, tail, stack, cap);
    }
  }

  lemma MarkupCallPasses(t: string, w: nat, pad: Option<string>, tail: string, stack: seq<Frame>, cap: nat)
    requires stack != [] && Regions(stack) && !CodeOnTop(stack) && |stack| <= cap && SilentTail(tail, stack, cap)
    requires Reads(t, w, "#" + (Word(pad) + ("(" + tail))) && tail != "" && tail[|tail| - 1] == ')'
    ensures Passes(t, w, "#" + (Word(pad) + ("(" + tail)), stack, cap)
  {
    ReadsEnds(t, w, "#" + (Word(pad) + ("(" + tail)));
    HashedWordOpens(t, w, pad, tail, stack, cap);
  }

  /** A fitting replacement, scanned where its call stood, reports nothing and restores the regions. */
  lemma PiecePasses(t: string, w: nat, piece: string, stack: seq<Frame>, cap: nat)
    requires stack != [] && Regions(stack)
    requires Fits(piece, CodeOnTop(stack), |stack| - 1, cap) && Reads(t, w, piece)
    ensures Passes(t, w, piece, stack, cap)
  {
    var pad, tail := PieceParts(piece, CodeOnTop(stack), stack, cap);
    if CodeOnTop(stack) {
      assert piece == Word(pad) + ("(" + tail);
      CodeCallPasses(t, w, pad, tail, stack, cap);
    } else {
      MarkupCallPasses(t, w, pad, tail, stack, cap);
    }
  }

  /** The regions after a move that reports nothing. */
  function Enter(stack: seq<Frame>, a: Action): seq<Frame>
    requires stack != []
  {
    match a
    case Close(_) => stack[..|stack| - 1]
    case Open(f, _) => stack + [f]
    case _ => stack
  }

  /** A name not followed by a call delimiter is not a call. */
  predicate Harmless(s: string, a: Action) {
    a.Call? ==> At(s, a.afterName) != '(' && At(s, a.afterName) != '['
  }

  lemma HarmlessMove(s: string, k: nat, stack: seq<Frame>, cap: nat)
    requires k < |s| && stack != [] && Harmless(s, Act(s, k, stack[|stack| - 1], |stack| <= cap))
    ensures var a := Act(s, k, stack[|stack| - 1], |stack| <= cap);
            Run(s, k, stack, cap) == Run(s, Reach(a), Enter(stack, a), cap)
  {
    Moves(s, k, stack, cap);
    var a := Act(s, k, stack[|stack| - 1], |stack| <= cap);
    if a.Call? {
      assert RunCall(s, a.start, a.afterName, a.codeContext, stack, cap) == Run(s, a.afterName, stack, cap);
    }
  }

  lemma EnterKeepsRegions(s: string, k: nat, stack: seq<Frame>, room: bool)
    requires k < |s| && stack != [] && Regions(stack)
    ensures Regions(Enter(stack, Act(s, k, stack[|stack| - 1], room)))
  {
    var a := Act(s, k, stack[|stack| - 1], room);
    assert a.Open? ==> a.frame == Frame(Markup, ']') || a.frame == CODE;
    forall f <- Enter(stack, a)
      ensures f == DOCUMENT || f == Frame(Markup, ']') || f == CODE
    {
      assert f in stack || (a.Open? && f == a.frame);
    }
  }

  lemma CallIsOfMode(s: string, k: nat, f: Frame, room: bool)
    requires k < |s|
    ensures var a := Act(s, k, f, room);
            a.Call? ==> a.codeContext == f.mode.Code? && (s[k] == '#' || (s[k] == 'd' && f.mode.Code?))
  {
  }

  lemma FirstIsCall(s: string, k: nat, stack: seq<Frame>, cap: nat) returns (a: Action)
    requires k < |s| && stack != []
    requires var out := Run(s, k, stack, cap); out.blocks != [] && out.blocks[0].start == k
    ensures a.Call? && a.start == k < a.afterName <= |s| && D2NameAt(s, k, a.afterName, a.codeContext)
    ensures a.codeContext == CodeOnTop(stack) && (s[k] == '#' || (s[k] == 'd' && a.codeContext))
    ensures Run(s, k, stack, cap) == RunCall(s, k, a.afterName, a.codeContext, stack, cap)
  {
    Moves(s, k, stack, cap);
    CallIsOfMode(s, k, stack[|stack| - 1], |stack| <= cap);
    CallNamesD2(s, k, stack[|stack| - 1], |stack| <= cap);
    a := Act(s, k, stack[|stack| - 1], |stack| <= cap);
    if !a.Call? {
      RunIsOrderly(s, a.next, Enter(stack, a), cap);
    }
  }

  lemma BlockEnds(s: string, b: D2Block)
    requires WellFormed(s, b)
    ensures b.start < b.end <= |s| && !FollowsName(s, b.end)
  {}

  lemma RunCallCases(s: string, a: Action, stack: seq<Frame>, cap: nat)
    requires a.Call? && a.start < a.afterName <= |s| && stack != []
    requires var out := RunCall(s, a.start, a.afterName, a.codeContext, stack, cap);
             out.blocks != [] && out.blocks[0].start == a.start && out.skipped == []
    ensures var out := RunCall(s, a.start, a.afterName, a.codeContext, stack, cap);
            && TryD2(s, a.start, a.afterName, a.codeContext) == Emitted(out.blocks[0])
            && out.blocks[0].codeContext == a.codeContext && out.depths[0] == |stack| - 1
            && Run(s, out.blocks[0].end, stack, cap) == Output(out.blocks[1..], out.depths[1..], [])
  {
    var r := TryD2(s, a.start, a.afterName, a.codeContext);
    if r.Emitted? {
      var rest := Run(s, r.block.end, stack, cap);
      assert RunCall(s, a.start, a.afterName, a.codeContext, stack, cap) == Found(r.block, |stack| - 1, rest);
    } else if r.NotACall? {
      RunIsOrderly(s, r.next, stack, cap);
    }
  }

  /** Where the first block starts is where a call is recognised. */
  lemma FirstBlockHere(s: string, k: nat, stack: seq<Frame>, cap: nat)
    requires k < |s| && stack != []
    requires var out := Run(s, k, stack, cap); out.blocks != [] && out.blocks[0].start == k && out.skipped == []
    ensures var out := Run(s, k, stack, cap);
            var b := out.blocks[0];
            && k < b.end <= |s| && b.codeContext == CodeOnTop(stack) && out.depths[0] == |stack| - 1
            && (s[k] == '#' || (s[k] == 'd' && CodeOnTop(stack)))
            && Run(s, b.end, stack, cap) == Output(out.blocks[1..], out.depths[1..], [])
            && !FollowsName(s, b.end)
  {
    var a := FirstIsCall(s, k, stack, cap);
    EmittedIsWellFormed(s, k, a.afterName, a.codeContext);
    RunCallCases(s, a, stack, cap);
    BlockEnds(s, Run(s, k, stack, cap).blocks[0]);
  }

  /** Short of the first block, a scan without refusals makes only moves that report nothing. */
  lemma BeforeFirstBlock(s: string, k: nat, stack: seq<Frame>, cap: nat)
    requires k < |s| && stack != []
    requires var out := Run(s, k, stack, cap); out.skipped == [] && (out.blocks != [] ==> out.blocks[0].start > k)
    ensures var out := Run(s, k, stack, cap);
            var a := Act(s, k, stack[|stack| - 1], |stack| <= cap);
            && Harmless(s, a) && out == Run(s, Reach(a), Enter(stack, a), cap)
            && (out.blocks != [] ==> Reach(a) <= out.blocks[0].start)
  {
    var a := Act(s, k, stack[|stack| - 1], |stack| <= cap);
    Moves(s, k, stack, cap);
    if a.Call? {
      var r := TryD2(s, a.start, a.afterName, a.codeContext);
      assert !r.Failed? && !r.Emitted?;
    }
    RunIsOrderly(s, Reach(a), Enter(stack, a), cap);
  }

  /** t goes on with u from j to its end. */
  predicate Rest(t: string, j: nat, u: string) {
    Reads(t, j, u) && j + |u| == |t|
  }

  lemma {:induction false} ReadsIsSame(s: string, i: nat, n: nat, t: string, j: nat)
    requires i + n <= |s| && Reads(t, j, s[i..i + n])
    ensures Same(s, i, t, j, n)
    decreases n
  {
    if n > 0 {
      assert s[i..i + n][1..] == s[i + 1..i + n];
      ReadsIsSame(s, i + 1, n - 1, t, j + 1);
    }
  }

  /** Every piece can stand where its block was found. */
  ghost predicate AllFit(blocks: seq<D2Block>, depths: seq<nat>, pieces: seq<string>,
                         fits: (string, bool, nat) -> bool) {
    && |blocks| == |depths| == |pieces|
    && forall x :: 0 <= x < |blocks| ==> fits(pieces[x], blocks[x].codeContext, depths[x])
  }

  /** How far the spliced text copies the source before the next replacement. */
  function Gap(s: string, i: nat, blocks: seq<D2Block>): nat
    requires i <= |s| && Spans(s, i, blocks)
  {
    if blocks == [] then |s| - i else blocks[0].start - i
  }

  /** What the spliced text holds from j on: a copy of the gap, then the first piece and the rest. */
  lemma SpliceParts(s: string, i: nat, t: string, j: nat, blocks: seq<D2Block>, pieces: seq<string>)
    requires i <= |s| && |blocks| == |pieces| && Spans(s, i, blocks) && Rest(t, j, Splice(s, i, blocks, pieces))
    ensures var n := Gap(s, i, blocks);
            && Same(s, i, t, j, n)
            && (blocks == [] ==> Whole(s, i, t, j, n))
            && (blocks != [] ==>
                  && Reads(t, j + n, pieces[0])
                  && Rest(t, j + n + |pieces[0]|, Splice(s, blocks[0].end, blocks[1..], pieces[1..])))
  {
    var n := Gap(s, i, blocks);
    if blocks == [] {
      assert s[i..] == s[i..i + n];
    } else {
      var c := Splice(s, blocks[0].end, blocks[1..], pieces[1..]);
      ReadsBoth(t, j, s[i..i + n] + pieces[0], c);
      ReadsBoth(t, j, s[i..i + n], pieces[0]);
    }
    ReadsIsSame(s, i, n, t, j);
  }

  /** The splice from further along the gap is the rest of the splice. */
  lemma SpliceFurther(s: string, i: nat, m: nat, t: string, j: nat, blocks: seq<D2Block>, pieces: seq<string>)
    requires i <= m <= |s| && |blocks| == |pieces| && Spans(s, i, blocks) && m <= i + Gap(s, i, blocks)
    requires Rest(t, j, Splice(s, i, blocks, pieces))
    ensures Spans(s, m, blocks) && Rest(t, j + (m - i), Splice(s, m, blocks, pieces))
  {
    SpliceFrom(s, i, m, blocks, pieces);
    ReadsBoth(t, j, s[i..m], Splice(s, m, blocks, pieces));
  }

  lemma {:induction false} StringEndsInQuote(s: string, k: nat)
    requires k < |s| && StringEnd(s, k) < |s|
    ensures s[StringEnd(s, k) - 1] == '"'
    decreases |s| - k
  {
    if s[k] != '"' {
      StringEndsInQuote(s, if s[k] == '\\' then k + 2 else k + 1);
    }
  }

  lemma {:induction false} CommentEndsInSlash(s: string, k: nat)
    requires k <= |s| && PastComment(s, k) < |s|
    ensures s[PastComment(s, k) - 1] == '/'
    decreases |s| - k
  {
    if !CommentCloseAt(s, k) {
      CommentEndsInSlash(s, k + 1);
    }
  }

  lemma {:induction false} FenceEndsInTick(s: string, k: nat)
    requires k <= |s| && PastFence(s, k) < |s|
    ensures s[PastFence(s, k) - 1] == '`'
    decreases |s| - k
  {
    if !FenceAt(s, k) {
      FenceEndsInTick(s, k + 1);
    }
  }

  /** Nothing the scanner treats as opaque ends in the middle of a line on a name character. */
  lemma OpaqueEndsPlainly(s: string, k: nat)
    requires k < |s| && OpaqueEnd(s, k).Some? && OpaqueEnd(s, k).value < |s|
    ensures var e := OpaqueEnd(s, k).value; !IsIdentChar(s[e - 1]) || s[e] == '\n'
  {
    if LineCommentAt(s, k) {
    } else if BlockCommentAt(s, k) {
      CommentEndsInSlash(s, k + 2);
    } else if s[k] == '"' {
      StringEndsInQuote(s, k + 1);
    } else if FenceAt(s, k) {
      FenceEndsInTick(s, k + 3);
    }
  }

  lemma {:induction false} NameCrosses(s: string, i: nat, t: string, j: nat, n: nat)
    requires Same(s, i, t, j, n) && i + n <= IdentEnd(s, i)
    ensures IdentEnd(t, j) == IdentEnd(t, j + n)
    decreases n
  {
    if n > 0 {
      NameCrosses(s, i + 1, t, j + 1, n - 1);
    }
  }

  /** The moves in code that end on a name character, short of a line end: part of a name, or a
      hash and the name d2. */
  lemma MovesEndingInName(s: string, i: nat, n: nat, room: bool)
    requires i < i + n < |s| && s[i + n] != '\n' && IsIdentChar(s[i + n - 1])
    requires Reach(Act(s, i, CODE, room)) == i + n
    ensures (IsIdentChar(s[i]) && i + n <= IdentEnd(s, i)) || (HashD2At(s, i) && n == 3)
    ensures var a := Act(s, i, CODE, room); a.Advance? || a.Call?
  {
    if OpaqueEnd(s, i).Some? {
      OpaqueEndsPlainly(s, i);
    }
  }

  lemma HashPasses(t: string, j: nat, room: bool)
    requires j < |t| && t[j] == '#' && IsIdentChar(At(t, j + 3))
    ensures Act(t, j, CODE, room) == Advance(j + 1)
  {
  }

  lemma DTwoRunsOn(t: string, j: nat)
    requires j + 2 <= |t| && t[j] == 'd' && t[j + 1] == '2'
    ensures IdentEnd(t, j) == IdentEnd(t, j + 2)
  {
    assert IdentEnd(t, j) == IdentEnd(t, j + 1);
  }

  lemma HashedNameIsSilent(s: string, i: nat, t: string, j: nat, piece: string, stack: seq<Frame>, cap: nat)
    requires Same(s, i, t, j, 3) && i < |s| && InCode(stack) && HashD2At(s, i)
    requires Passes(t, j + 3, piece, stack, cap)
    ensures Run(t, j, stack, cap) == Run(t, j + 3 + |piece|, stack, cap)
  {
    SameAt(s, i, t, j, 3, 1);
    SameAt(s, i, t, j, 3, 2);
    HashPasses(t, j, |stack| <= cap);
    HarmlessMove(t, j, stack, cap);
    DTwoRunsOn(t, j + 1);
  }

  /** Before a call in code with a hash, a name may touch the call; the replacement has no hash, so
      in the new text the name runs on into it. That name is not d2, and the scan goes on as before. */
  lemma SeamIsSilent(s: string, i: nat, t: string, j: nat, n: nat, piece: string, stack: seq<Frame>, cap: nat)
    requires Copied(s, i, t, j, n) && i < |s| && n > 0 && InCode(stack)
    requires Reach(Act(s, i, CODE, |stack| <= cap)) == i + n
    requires NameMeetsSeam(s, i, t, j, n) && Passes(t, j + n, piece, stack, cap)
    ensures Run(t, j, stack, cap) == Run(t, j + n + |piece|, stack, cap)
  {
    MovesEndingInName(s, i, n, |stack| <= cap);
    if IsIdentChar(s[i]) {
      NameCrosses(s, i, t, j, n);
    } else {
      HashedNameIsSilent(s, i, t, j, piece, stack, cap);
    }
  }

  /** The scan of s at i and that of its splice t at j are in step: same regions, and what is left
      of t is what is left of s with the remaining calls replaced. */
  ghost predicate InStep(s: string, i: nat, t: string, j: nat, stack: seq<Frame>, pieces: seq<string>, cap: nat,
                         fits: (string, bool, nat) -> bool) {
    var out := Run(s, i, stack, cap);
    && Regions(stack) && out.skipped == [] && AllFit(out.blocks, out.depths, pieces, fits)
    && (i <= |s| ==>
          && Spans(s, i, out.blocks) && Rest(t, j, Splice(s, i, out.blocks, pieces))
          && FollowsName(s, i) == FollowsName(t, j))
    && (i > |s| ==> j >= |t|)
  }

  /** The first byte of a piece tells the mode it is for. */
  lemma PieceStart(t: string, w: nat, piece: string, ctx: bool, depth: nat, cap: nat, fits: (string, bool, nat) -> bool)
    requires Sound(fits, cap) && fits(piece, ctx, depth) && Reads(t, w, piece)
    ensures w < |t| && (if ctx then t[w] == 'i' || t[w] == 'p' else t[w] == '#')
  {
    var f := if ctx then CODE else Frame(Markup, ']');
    var stack := seq(depth + 1, _ => f);
    assert Passes(t, w, piece, stack, cap);
  }

  /** Where the next call starts. */
  lemma NextCall(s: string, i: nat, stack: seq<Frame>, cap: nat)
    requires i < |s| && stack != []
    requires var out := Run(s, i, stack, cap); out.skipped == [] && out.blocks != []
    ensures var b := Run(s, i, stack, cap).blocks[0];
            i <= b.start < |s| && (s[b.start] == '#' || (s[b.start] == 'd' && b.codeContext))
  {
    RunIsOrderly(s, i, stack, cap);
    var b := Run(s, i, stack, cap).blocks[0];
    var n: nat :| OpensAt(s, b.start, n, b.codeContext);
  }

  /** Past a call and its replacement the scans are in step again. */
  lemma PastTheCall(s: string, i: nat, t: string, w: nat, stack: seq<Frame>, pieces: seq<string>, cap: nat,
                    fits: (string, bool, nat) -> bool)
    requires i < |s| && stack != [] && Regions(stack) && pieces != []
    requires var out := Run(s, i, stack, cap);
             && out.skipped == [] && out.blocks != [] && out.blocks[0].start == i
             && AllFit(out.blocks, out.depths, pieces, fits) && Spans(s, i, out.blocks)
             && Rest(t, w + |pieces[0]|, Splice(s, out.blocks[0].end, out.blocks[1..], pieces[1..]))
    requires Passes(t, w, pieces[0], stack, cap)
    ensures InStep(s, Run(s, i, stack, cap).blocks[0].end, t, w + |pieces[0]|, stack, pieces[1..], cap, fits)
  {
    FirstBlockHere(s, i, stack, cap);
    var out := Run(s, i, stack, cap);
    var b := out.blocks[0];
    var rest := Run(s, b.end, stack, cap);
    assert rest.blocks == out.blocks[1..] && rest.depths == out.depths[1..];
    forall x | 0 <= x < |rest.blocks|
      ensures fits(pieces[1..][x], rest.blocks[x].codeContext, rest.depths[x])
    {
      assert fits(pieces[x + 1], out.blocks[x + 1].codeContext, out.depths[x + 1]);
    }
  }

  lemma BracketMoves(s: string, k: nat, stack: seq<Frame>, room: bool)
    requires k < |s| && stack != [] && Regions(stack)
    ensures var a := Act(s, k, stack[|stack| - 1], room);
            a.Open? || a.Close? ==> a.next <= |s| && !IsIdentChar(s[a.next - 1])
  {
    TopIsRegion(stack);
  }

  /** The call stands right here: its replacement is passed in one go. */
  lemma StepOverCall(s: string, i: nat, t: string, j: nat, stack: seq<Frame>, pieces: seq<string>, cap: nat,
                     fits: (string, bool, nat) -> bool)
    requires Sound(fits, cap) && InStep(s, i, t, j, stack, pieces, cap, fits) && i < |s| && stack != []
    requires var out := Run(s, i, stack, cap); out.blocks != [] && out.blocks[0].start == i
    ensures var b := Run(s, i, stack, cap).blocks[0];
            && i < b.end && pieces != []
            && Run(t, j, stack, cap) == Run(t, j + |pieces[0]|, stack, cap)
            && InStep(s, b.end, t, j + |pieces[0]|, stack, pieces[1..], cap, fits)
  {
    var out := Run(s, i, stack, cap);
    SpliceParts(s, i, t, j, out.blocks, pieces);
    FirstBlockHere(s, i, stack, cap);
    assert fits(pieces[0], out.blocks[0].codeContext, out.depths[0]);
    assert Passes(t, j, pieces[0], stack, cap);
    PastTheCall(s, i, t, j, stack, pieces, cap, fits);
  }

  /** The text up to the next call is copied. */
  lemma GapIsCopied(s: string, i: nat, t: string, j: nat, stack: seq<Frame>, pieces: seq<string>, cap: nat,
                    fits: (string, bool, nat) -> bool)
    requires Sound(fits, cap) && InStep(s, i, t, j, stack, pieces, cap, fits) && i < |s| && stack != []
    ensures var blocks := Run(s, i, stack, cap).blocks;
            var n := Gap(s, i, blocks);
            && Copied(s, i, t, j, n)
            && (blocks == [] ==> Whole(s, i, t, j, n))
            && (blocks != [] ==> j + n < |t| && (t[j + n] == '#' <==> !blocks[0].codeContext))
  {
    var out := Run(s, i, stack, cap);
    SpliceParts(s, i, t, j, out.blocks, pieces);
    if out.blocks != [] {
      NextCall(s, i, stack, cap);
      assert fits(pieces[0], out.blocks[0].codeContext, out.depths[0]);
      PieceStart(t, j + Gap(s, i, out.blocks), pieces[0], out.blocks[0].codeContext, out.depths[0], cap, fits);
    }
  }

  /** A move that keeps the regions and ends where the next call starts. */
  lemma CallComesNext(s: string, i: nat, stack: seq<Frame>, cap: nat)
    requires i < |s| && stack != []
    requires var out := Run(s, i, stack, cap);
             var a := Act(s, i, stack[|stack| - 1], |stack| <= cap);
             && out.skipped == [] && out.blocks != [] && i < out.blocks[0].start == Reach(a)
             && (a.Advance? || a.Call?)
    ensures var out := Run(s, i, stack, cap);
            var k := out.blocks[0].start;
            k < |s| && Run(s, k, stack, cap) == out && out.blocks[0].codeContext == CodeOnTop(stack)
  {
    BeforeFirstBlock(s, i, stack, cap);
    NextCall(s, i, stack, cap);
    FirstBlockHere(s, Run(s, i, stack, cap).blocks[0].start, stack, cap);
  }

  /** At the next call the first piece passes. */
  lemma FirstPiecePasses(s: string, i: nat, t: string, j: nat, stack: seq<Frame>, pieces: seq<string>, cap: nat,
                         fits: (string, bool, nat) -> bool)
    requires Sound(fits, cap) && InStep(s, i, t, j, stack, pieces, cap, fits) && i <= |s| && stack != []
    requires var out := Run(s, i, stack, cap);
             out.blocks != [] && out.blocks[0].codeContext == CodeOnTop(stack) && out.depths[0] == |stack| - 1
    ensures pieces != [] && Passes(t, j + Gap(s, i, Run(s, i, stack, cap).blocks), pieces[0], stack, cap)
  {
    var out := Run(s, i, stack, cap);
    SpliceParts(s, i, t, j, out.blocks, pieces);
    assert fits(pieces[0], out.blocks[0].codeContext, out.depths[0]);
  }

  /** At the seam the first piece passes. */
  lemma PassesAtSeam(s: string, i: nat, t: string, j: nat, w: nat, stack: seq<Frame>, pieces: seq<string>, cap: nat,
                     fits: (string, bool, nat) -> bool)
    requires Sound(fits, cap) && InStep(s, i, t, j, stack, pieces, cap, fits) && i < |s| && stack != []
    requires var out := Run(s, i, stack, cap);
             && out.blocks != [] && i <= out.blocks[0].start < |s|
             && Run(s, out.blocks[0].start, stack, cap) == out && w == j + (out.blocks[0].start - i)
    ensures pieces != [] && Passes(t, w, pieces[0], stack, cap)
  {
    FirstBlockHere(s, Run(s, i, stack, cap).blocks[0].start, stack, cap);
    FirstPiecePasses(s, i, t, j, stack, pieces, cap, fits);
  }

  lemma SeamIsSpliced(s: string, i: nat, t: string, j: nat, blocks: seq<D2Block>, pieces: seq<string>, w: nat)
    requires i <= |s| && |blocks| == |pieces| && blocks != [] && Spans(s, i, blocks)
    requires Rest(t, j, Splice(s, i, blocks, pieces)) && w == j + (blocks[0].start - i)
    ensures Spans(s, blocks[0].start, blocks)
    ensures Rest(t, w + |pieces[0]|, Splice(s, blocks[0].end, blocks[1..], pieces[1..]))
  {
    SpliceParts(s, i, t, j, blocks, pieces);
  }

  /** And past it the scans are in step. */
  lemma PastTheSeam(s: string, i: nat, t: string, j: nat, w: nat, stack: seq<Frame>, pieces: seq<string>, cap: nat,
                    fits: (string, bool, nat) -> bool)
    requires InStep(s, i, t, j, stack, pieces, cap, fits) && i < |s| && stack != [] && pieces != []
    requires var out := Run(s, i, stack, cap);
             && out.blocks != [] && i <= out.blocks[0].start < |s| && Run(s, out.blocks[0].start, stack, cap) == out
             && w == j + (out.blocks[0].start - i) && Passes(t, w, pieces[0], stack, cap)
    ensures var b := Run(s, i, stack, cap).blocks[0];
            b.start < b.end && InStep(s, b.end, t, w + |pieces[0]|, stack, pieces[1..], cap, fits)
  {
    var out := Run(s, i, stack, cap);
    FirstBlockHere(s, out.blocks[0].start, stack, cap);
    SeamIsSpliced(s, i, t, j, out.blocks, pieces, w);
    PastTheCall(s, out.blocks[0].start, t, w, stack, pieces, cap, fits);
  }

  /** A name touches the call from the left: the name and the replacement are passed in one go. */
  lemma {:induction false} StepOverSeam(s: string, i: nat, t: string, j: nat, stack: seq<Frame>, pieces: seq<string>,
                                        cap: nat, fits: (string, bool, nat) -> bool)
    requires Sound(fits, cap) && InStep(s, i, t, j, stack, pieces, cap, fits) && i < |s| && stack != []
    requires var blocks := Run(s, i, stack, cap).blocks;
             var n := Gap(s, i, blocks);
             && n > 0 && blocks != [] && NameMeetsSeam(s, i, t, j, n)
             && Reach(Act(s, i, stack[|stack| - 1], |stack| <= cap)) == i + n
    ensures var b := Run(s, i, stack, cap).blocks[0];
            var w := j + Gap(s, i, Run(s, i, stack, cap).blocks);
            && i < b.end && pieces != []
            && Run(t, j, stack, cap) == Run(t, w + |pieces[0]|, stack, cap)
            && InStep(s, b.end, t, w + |pieces[0]|, stack, pieces[1..], cap, fits)
  {
    var blocks := Run(s, i, stack, cap).blocks;
    var n := Gap(s, i, blocks);
    var w := j + n;
    GapIsCopied(s, i, t, j, stack, pieces, cap, fits);
    BracketMoves(s, i, stack, |stack| <= cap);
    CallComesNext(s, i, stack, cap);
    TopIsRegion(stack);
    PassesAtSeam(s, i, t, j, w, stack, pieces, cap, fits);
    PastTheSeam(s, i, t, j, w, stack, pieces, cap, fits);
    SeamIsSilent(s, i, t, j, n, pieces[0], stack, cap);
  }

  /** Any other move is made in both texts alike. */
  lemma MovesAlike(s: string, i: nat, t: string, j: nat, stack: seq<Frame>, pieces: seq<string>, cap: nat,
                   fits: (string, bool, nat) -> bool)
    requires Sound(fits, cap) && InStep(s, i, t, j, stack, pieces, cap, fits) && i < |s| && stack != []
    requires var a := Act(s, i, stack[|stack| - 1], |stack| <= cap);
             var n := Gap(s, i, Run(s, i, stack, cap).blocks);
             n > 0 && (Reach(a) == i + n ==> !NameMeetsSeam(s, i, t, j, n))
    ensures var a := Act(s, i, stack[|stack| - 1], |stack| <= cap);
            && Harmless(s, a) && Act(t, j, stack[|stack| - 1], |stack| <= cap) == PlaceOf(i, j, a)
            && Run(s, i, stack, cap) == Run(s, Reach(a), Enter(stack, a), cap)
            && (Reach(a) <= i + Gap(s, i, Run(s, i, stack, cap).blocks) || Run(s, i, stack, cap).blocks == [])
  {
    var blocks := Run(s, i, stack, cap).blocks;
    var n := Gap(s, i, blocks);
    var a := Act(s, i, stack[|stack| - 1], |stack| <= cap);
    GapIsCopied(s, i, t, j, stack, pieces, cap, fits);
    BeforeFirstBlock(s, i, stack, cap);
    if blocks != [] && Reach(a) == i + n && (a.Advance? || a.Call?) {
      CallComesNext(s, i, stack, cap);
    }
    MoveShifts(s, i, t, j, n, stack[|stack| - 1], |stack| <= cap);
  }

  /** Further along the gap, with the same calls to come, the scans are still in step. */
  lemma StillInStep(s: string, i: nat, t: string, j: nat, m: nat, stack: seq<Frame>, stack2: seq<Frame>,
                    pieces: seq<string>, cap: nat, fits: (string, bool, nat) -> bool)
    requires InStep(s, i, t, j, stack, pieces, cap, fits) && i < |s| && i < m && Regions(stack2)
    requires var blocks := Run(s, i, stack, cap).blocks;
             var n := Gap(s, i, blocks);
             && Run(s, m, stack2, cap) == Run(s, i, stack, cap)
             && Copied(s, i, t, j, n) && (m <= i + n || blocks == []) && (blocks == [] ==> Whole(s, i, t, j, n))
    ensures InStep(s, m, t, Place(i, j, m), stack2, pieces, cap, fits)
  {
    var blocks := Run(s, i, stack, cap).blocks;
    if m <= |s| {
      SpliceFurther(s, i, m, t, j, blocks, pieces);
      SameAt(s, i, t, j, Gap(s, i, blocks), m - 1 - i);
    }
  }

  lemma AlikeIsHarmless(s: string, i: nat, t: string, j: nat, n: nat, a: Action)
    requires Copied(s, i, t, j, n) && Harmless(s, a)
    requires if a.Call? then i <= a.start && i < a.afterName <= i + n else i <= a.next
    ensures Harmless(t, PlaceOf(i, j, a))
  {
    if a.Call? && a.afterName < i + n {
      SameAt(s, i, t, j, n, a.afterName - i);
    }
  }

  lemma StepAlike(s: string, i: nat, t: string, j: nat, stack: seq<Frame>, pieces: seq<string>, cap: nat,
                  fits: (string, bool, nat) -> bool)
    requires Sound(fits, cap) && InStep(s, i, t, j, stack, pieces, cap, fits) && i < |s| && stack != []
    requires var a := Act(s, i, stack[|stack| - 1], |stack| <= cap);
             var n := Gap(s, i, Run(s, i, stack, cap).blocks);
             n > 0 && (Reach(a) == i + n ==> !NameMeetsSeam(s, i, t, j, n))
    ensures var a := Act(s, i, stack[|stack| - 1], |stack| <= cap);
            && i < Reach(a)
            && Run(t, j, stack, cap) == Run(t, Place(i, j, Reach(a)), Enter(stack, a), cap)
            && InStep(s, Reach(a), t, Place(i, j, Reach(a)), Enter(stack, a), pieces, cap, fits)
  {
    var blocks := Run(s, i, stack, cap).blocks;
    var n := Gap(s, i, blocks);
    var a := Act(s, i, stack[|stack| - 1], |stack| <= cap);
    GapIsCopied(s, i, t, j, stack, pieces, cap, fits);
    MovesAlike(s, i, t, j, stack, pieces, cap, fits);
    AlikeIsHarmless(s, i, t, j, n, a);
    HarmlessMove(t, j, stack, cap);
    EnterKeepsRegions(s, i, stack, |stack| <= cap);
    StillInStep(s, i, t, j, Reach(a), stack, Enter(stack, a), pieces, cap, fits);
  }

  /** One step of both scans. */
  lemma StepTogether(s: string, i: nat, t: string, j: nat, stack: seq<Frame>, pieces: seq<string>, cap: nat,
                     fits: (string, bool, nat) -> bool)
    returns (i2: nat, j2: nat, stack2: seq<Frame>, pieces2: seq<string>)
    requires Sound(fits, cap) && InStep(s, i, t, j, stack, pieces, cap, fits) && i < |s| && stack != []
    ensures i < i2 && Run(t, j, stack, cap) == Run(t, j2, stack2, cap)
    ensures InStep(s, i2, t, j2, stack2, pieces2, cap, fits)
  {
    var blocks := Run(s, i, stack, cap).blocks;
    var n := Gap(s, i, blocks);
    var a := Act(s, i, stack[|stack| - 1], |stack| <= cap);
    if n == 0 {
      StepOverCall(s, i, t, j, stack, pieces, cap, fits);
      i2, j2, stack2, pieces2 := blocks[0].end, j + |pieces[0]|, stack, pieces[1..];
    } else if Reach(a) == i + n && NameMeetsSeam(s, i, t, j, n) {
      GapIsCopied(s, i, t, j, stack, pieces, cap, fits);
      StepOverSeam(s, i, t, j, stack, pieces, cap, fits);
      i2, j2, stack2, pieces2 := blocks[0].end, j + n + |pieces[0]|, stack, pieces[1..];
    } else {
      StepAlike(s, i, t, j, stack, pieces, cap, fits);
      i2, j2, stack2, pieces2 := Reach(a), Place(i, j, Reach(a)), Enter(stack, a), pieces;
    }
  }

  lemma EndTogether(s: string, i: nat, t: string, j: nat, stack: seq<Frame>, pieces: seq<string>, cap: nat,
                    fits: (string, bool, nat) -> bool)
    requires InStep(s, i, t, j, stack, pieces, cap, fits) && (i >= |s| || stack == [])
    ensures stack == [] || j >= |t|
  {
    if i == |s| && stack != [] {
      assert Splice(s, i, [], pieces) == "";
    }
  }

  /** Scans in step stay so to the end: the spliced text is quiet. */
  lemma {:induction false} InStepIsQuiet(s: string, i: nat, t: string, j: nat, stack: seq<Frame>, pieces: seq<string>,
                                         cap: nat, fits: (string, bool, nat) -> bool)
    requires Sound(fits, cap) && InStep(s, i, t, j, stack, pieces, cap, fits)
    ensures Run(t, j, stack, cap) == NOTHING
    decreases if i <= |s| then |s| - i else 0
  {
    if i < |s| && stack != [] {
      var i2, j2, stack2, pieces2 := StepTogether(s, i, t, j, stack, pieces, cap, fits);
      InStepIsQuiet(s, i2, t, j2, stack2, pieces2, cap, fits);
    } else {
      EndTogether(s, i, t, j, stack, pieces, cap, fits);
    }
  }

  /** A source without refused calls, whose calls are replaced by any pieces that pass, has none left. */
  lemma SpliceIsQuiet(s: string, pieces: seq<string>, fits: (string, bool, nat) -> bool)
    requires Sound(fits, MAX_SCAN_DEPTH)
    requires var out := Scan(s);
             out.skipped == [] && AllFit(out.blocks, out.depths, pieces, fits)
    ensures Spans(s, 0, Scan(s).blocks) && Scan(Splice(s, 0, Scan(s).blocks, pieces)) == NOTHING
  {
    ScanSpans(s);
    var t := Splice(s, 0, Scan(s).blocks, pieces);
    ReadsSlice(t, 0, |t|);
    assert t[0..|t|] == t;
    InStepIsQuiet(s, 0, t, 0, [DOCUMENT], pieces, MAX_SCAN_DEPTH, fits);
  }

  /** Plain width and pad values, at every call. */
  predicate PlainCalls(blocks: seq<D2Block>, parse: string -> Options) {
    forall b <- blocks :: PlainOptions(parse(b.options))
  }

  /** Every call stands far enough below the nesting cap for its replacement: two regions for an
      image call, three with a pad wrapper. */
  predicate RoomForPieces(out: Output, parse: string -> Options) {
    forall x :: 0 <= x < |out.blocks| && x < |out.depths| ==>
      out.depths[x] + Levels(PadOf(parse(out.blocks[x].options))) <= MAX_SCAN_DEPTH
  }

  /** Preprocessing leaves nothing to preprocess: when no call was refused, no call sits within two
      (with a pad, three) levels of the cap, and width and pad values are plain, the document that
      Preprocess assembles scans to no block and no refusal. */
  lemma PreprocessedDocumentIsQuiet(s: string, parse: string -> Options, draw: (string, Options) -> Option<string>)
    requires Scan(s).skipped == [] && AllDrawn(Scan(s).blocks, parse, draw)
    requires forall code, options :: var svg := draw(code, options); svg.Some? ==> Base64(svg.value)
    requires PlainCalls(Scan(s).blocks, parse) && RoomForPieces(Scan(s), parse)
    ensures Spans(s, 0, Scan(s).blocks)
            && Scan(Splice(s, 0, Scan(s).blocks, Pieces(Scan(s).blocks, parse, draw))) == NOTHING
  {
    var out := Scan(s);
    var pieces := Pieces(out.blocks, parse, draw);
    var fits := (piece: string, ctx: bool, depth: nat) => Fits(piece, ctx, depth, MAX_SCAN_DEPTH);
    forall t, w: nat, piece, stack |
      stack != [] && Regions(stack) && fits(piece, CodeOnTop(stack), |stack| - 1) && Reads(t, w, piece)
      ensures Passes(t, w, piece, stack, MAX_SCAN_DEPTH)
    {
      PiecePasses(t, w, piece, stack, MAX_SCAN_DEPTH);
    }
    forall x | 0 <= x < |out.blocks|
      ensures fits(pieces[x], out.blocks[x].codeContext, out.depths[x])
    {
      var b := out.blocks[x];
      var (options, depth) := (parse(b.options), out.depths[x]);
      TypstImageFits(draw(b.code, options).value, options, b.codeContext, depth, MAX_SCAN_DEPTH);
    }
    SpliceIsQuiet(s, pieces, fits);
  }
}
