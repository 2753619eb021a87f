/** Adding the import line to a document: where it goes, and that the scan notices nothing. */
module Insertion {
  import opened Text
  import opened Lexing
  import opened ScanMachine
  import opened Preprocessing
  import opened Shifting
  import opened Rescan
  import opened ImportLine
  import Silence

  /** The first p bytes of both texts are the same lines. */
  ghost predicate SameLines(s: string, t: string, p: nat) {
    0 < p <= |s| && p <= |t| && s[p - 1] == '\n' && forall i | 0 <= i < p :: t[i] == s[i]
  }

  // Up to p, or over p: what the scanner skips ends before p alike, or goes on from p in both texts.

  lemma {:induction false} NameBefore(s: string, t: string, p: nat, k: nat)
    requires SameLines(s, t, p) && k < p
    ensures IdentEnd(t, k) == IdentEnd(s, k) < p
    decreases p - k
  {
    if IsIdentChar(s[k]) { NameBefore(s, t, p, k + 1); }
  }

  lemma {:induction false} CharBefore(s: string, t: string, p: nat, c: char, k: nat)
    requires SameLines(s, t, p) && k <= p
    ensures if FindChar(s, c, k) < p then FindChar(t, c, k) == FindChar(s, c, k)
            else FindChar(s, c, k) == FindChar(s, c, p) && FindChar(t, c, k) == FindChar(t, c, p)
    ensures k < p && c == '\n' ==> FindChar(s, c, k) < p
    decreases p - k
  {
    if k < p && s[k] != c { CharBefore(s, t, p, c, k + 1); }
  }

  lemma {:induction false} CommentBefore(s: string, t: string, p: nat, k: nat)
    requires SameLines(s, t, p) && k <= p
    ensures if PastComment(s, k) < p then PastComment(t, k) == PastComment(s, k)
            else PastComment(s, k) == PastComment(s, p) && PastComment(t, k) == PastComment(t, p)
    decreases p - k
  {
    if k < p && !CommentCloseAt(s, k) { CommentBefore(s, t, p, k + 1); }
  }

  lemma {:induction false} FenceBefore(s: string, t: string, p: nat, k: nat)
    requires SameLines(s, t, p) && k <= p
    ensures if PastFence(s, k) < p then PastFence(t, k) == PastFence(s, k)
            else PastFence(s, k) == PastFence(s, p) && PastFence(t, k) == PastFence(t, p)
    decreases p - k
  {
    if k < p && !FenceAt(s, k) { FenceBefore(s, t, p, k + 1); }
  }

  lemma {:induction false} StringBefore(s: string, t: string, p: nat, k: nat)
    requires SameLines(s, t, p) && k <= p
    ensures if StringEnd(s, k) < p then StringEnd(t, k) == StringEnd(s, k)
            else StringEnd(s, k) == StringEnd(s, p) && StringEnd(t, k) == StringEnd(t, p)
    decreases p - k
  {
    if k < p && s[k] != '"' { StringBefore(s, t, p, if s[k] == '\\' then k + 2 else k + 1); }
  }

  // Over the line.

  lemma {:induction false} CharOver(t: string, c: char, a: nat, b: nat)
    requires a <= b <= |t| && forall i | a <= i < b :: t[i] != c
    ensures FindChar(t, c, a) == FindChar(t, c, b)
    decreases b - a
  {
    if a < b { CharOver(t, c, a + 1, b); }
  }

  lemma {:induction false} CommentOver(t: string, a: nat, b: nat)
    requires a <= b <= |t| && forall i | a <= i < b :: t[i] != '*'
    ensures PastComment(t, a) == PastComment(t, b)
    decreases b - a
  {
    if a < b { CommentOver(t, a + 1, b); }
  }

  lemma {:induction false} FenceOver(t: string, a: nat, b: nat)
    requires a <= b <= |t| && forall i | a <= i < b :: t[i] != '`'
    ensures PastFence(t, a) == PastFence(t, b)
    decreases b - a
  {
    if a < b { FenceOver(t, a + 1, b); }
  }

  /** t is s with the line at m in it, at the start of a line. */
  ghost predicate LineAdded(s: string, t: string, m: Marks) {
    SameLines(s, t, m.p) && Stands(t, m) && Same(s, m.p, t, m.end, |s| - m.p) && |t| - m.end == |s| - m.p
  }

  /** How far the line moves what follows it. */
  function Moved(m: Marks, e: nat): nat
    requires m.p <= e && m.p <= m.end
  {
    e - m.p + m.end
  }

  lemma OpaqueStartsAlike(s: string, t: string, p: nat, k: nat)
    requires SameLines(s, t, p) && k < p
    ensures LineCommentAt(t, k) == LineCommentAt(s, k) && BlockCommentAt(t, k) == BlockCommentAt(s, k)
    ensures FenceAt(t, k) == FenceAt(s, k) && t[k] == s[k]
    ensures LineCommentAt(s, k) ==> k + 2 < p
    ensures BlockCommentAt(s, k) ==> k + 2 <= p
    ensures FenceAt(s, k) ==> k + 3 <= p
  {}

  lemma CommentAlike(s: string, t: string, m: Marks, k: nat)
    requires LineAdded(s, t, m) && k <= m.p
    ensures var e := PastComment(s, k); PastComment(t, k) == if e < m.p then e else Moved(m, e)
  {
    LineIsOneLine(t, m);
    CommentBefore(s, t, m.p, k);
    CommentOver(t, m.p, m.end);
    CommentShifts(s, m.p, t, m.end, |s| - m.p);
  }

  lemma FenceAlike(s: string, t: string, m: Marks, k: nat)
    requires LineAdded(s, t, m) && k <= m.p
    ensures var e := PastFence(s, k); PastFence(t, k) == if e < m.p then e else Moved(m, e)
  {
    LineIsOneLine(t, m);
    FenceBefore(s, t, m.p, k);
    FenceOver(t, m.p, m.end);
    FenceShifts(s, m.p, t, m.end, |s| - m.p);
  }

  lemma TickAlike(s: string, t: string, m: Marks, k: nat)
    requires LineAdded(s, t, m) && k <= m.p
    ensures var e := PastChar(s, '`', k); PastChar(t, '`', k) == if e < m.p then e else Moved(m, e)
  {
    LineIsOneLine(t, m);
    CharBefore(s, t, m.p, '`', k);
    CharOver(t, '`', m.p, m.end);
    CharShifts(s, '`', m.p, t, m.end, |s| - m.p);
  }

  /** Comments and raw text that end before the line end there still, and others go on past it. */
  lemma OpaqueAlike(s: string, t: string, m: Marks, k: nat)
    requires LineAdded(s, t, m) && k < m.p && OpaqueEnd(s, k).Some? && s[k] != '"'
    ensures var e := OpaqueEnd(s, k).value;
            OpaqueEnd(t, k) == Some(if e < m.p then e else Moved(m, e))
  {
    OpaqueStartsAlike(s, t, m.p, k);
    if LineCommentAt(s, k) {
      CharBefore(s, t, m.p, '\n', k + 2);
    } else if BlockCommentAt(s, k) {
      CommentAlike(s, t, m, k + 2);
    } else if FenceAt(s, k) {
      FenceAlike(s, t, m, k + 3);
    } else {
      TickAlike(s, t, m, k + 1);
    }
  }

  /** Strings too, but that the line closes the string and opens it again. */
  lemma StringAlike(s: string, t: string, m: Marks, k: nat)
    requires LineAdded(s, t, m) && k < m.p && s[k] == '"'
    ensures OpaqueEnd(s, k) == Some(StringEnd(s, k + 1)) && OpaqueEnd(t, k) == Some(StringEnd(t, k + 1))
    ensures var e := StringEnd(s, k + 1);
            if e < m.p then StringEnd(t, k + 1) == e
            else StringEnd(t, k + 1) == StringEnd(t, m.p) && StringEnd(t, m.end) == Moved(m, e)
  {
    StringBefore(s, t, m.p, k + 1);
    StringShifts(s, m.p, t, m.end, |s| - m.p);
  }

  lemma HashAlike(s: string, t: string, p: nat, k: nat, room: bool)
    requires SameLines(s, t, p) && k < p && s[k] == '#'
    ensures var a := HashAction(s, k, room);
            HashAction(t, k, room) == a && Reach(a) <= p && (Harmless(s, a) ==> Harmless(t, a))
  {
    NameBefore(s, t, p, k + 1);
  }

  lemma NameAlike(s: string, t: string, p: nat, k: nat)
    requires SameLines(s, t, p) && k < p
    ensures AtIdentStart(t, k) == AtIdentStart(s, k) && IdentEnd(t, k) == IdentEnd(s, k) < p
    ensures NamesD2(t, k, IdentEnd(t, k)) == NamesD2(s, k, IdentEnd(s, k))
    ensures At(t, IdentEnd(t, k)) == At(s, IdentEnd(s, k))
    ensures HashD2At(t, k) == HashD2At(s, k)
    ensures HashD2At(s, k) ==> k + 3 < p && At(t, k + 3) == At(s, k + 3)
  {
    NameBefore(s, t, p, k);
  }

  /** Every other move before the line is the same. */
  lemma MoveAlike(s: string, t: string, p: nat, k: nat, f: Frame, room: bool)
    requires SameLines(s, t, p) && k < p && OpaqueEnd(s, k).None?
    ensures var a := Act(s, k, f, room);
            Act(t, k, f, room) == a && Reach(a) <= p && (Harmless(s, a) ==> Harmless(t, a))
  {
    OpaqueStartsAlike(s, t, p, k);
    NameAlike(s, t, p, k);
    if s[k] == '#' { HashAlike(s, t, p, k, room); }
  }

  lemma {:induction false} SameReads(s: string, i: nat, t: string, j: nat)
    requires i <= |s| && Same(s, i, t, j, |s| - i)
    ensures Reads(t, j, s[i..])
    decreases |s| - i
  {
    if i < |s| {
      SameReads(s, i + 1, t, j + 1);
      assert s[i..][1..] == s[i + 1..];
    }
  }

  /** What follows the line scans as it did. */
  lemma TailIsQuiet(s: string, i: nat, t: string, j: nat, stack: seq<Frame>, cap: nat)
    requires Regions(stack) && Run(s, i, stack, cap) == NOTHING
    requires if i <= |s| then Same(s, i, t, j, |s| - i) && |t| - j == |s| - i && FollowsName(s, i) == FollowsName(t, j)
             else j >= |t|
    ensures Run(t, j, stack, cap) == NOTHING
  {
    var none := (piece: string, ctx: bool, depth: nat) => false;
    if i <= |s| {
      SameReads(s, i, t, j);
      assert Splice(s, i, [], []) == s[i..];
    }
    assert InStep(s, i, t, j, stack, [], cap, none);
    InStepIsQuiet(s, i, t, j, stack, [], cap, none);
  }

  lemma TailAfterLine(s: string, t: string, m: Marks, e: nat, stack: seq<Frame>, cap: nat)
    requires LineAdded(s, t, m) && m.p <= e && Regions(stack) && Run(s, e, stack, cap) == NOTHING
    ensures Run(t, Moved(m, e), stack, cap) == NOTHING
  {
    if e <= |s| {
      SamePart(s, m.p, t, m.end, |s| - m.p, e - m.p);
      if m.p < e { Shifting.SameAt(s, m.p, t, m.end, |s| - m.p, e - 1 - m.p); }
    }
    TailIsQuiet(s, e, t, Moved(m, e), stack, cap);
  }

  /** From any place before the line, with any regions open. */
  lemma {:induction false} AddedIsQuiet(s: string, t: string, m: Marks, k: nat, stack: seq<Frame>, cap: nat)
    requires LineAdded(s, t, m) && k <= m.p && Regions(stack) && Run(s, k, stack, cap) == NOTHING
    ensures Run(t, k, stack, cap) == NOTHING
    decreases m.p - k
  {
    if stack != [] {
      if k == m.p {
        LineIsPassed(t, m, stack, cap);
        TailAfterLine(s, t, m, m.p, stack, cap);
      } else {
        BeforeFirstBlock(s, k, stack, cap);
        if OpaqueEnd(s, k).Some? {
          AddedAfterOpaque(s, t, m, k, stack, cap);
        } else {
          var a := Act(s, k, stack[|stack| - 1], |stack| <= cap);
          MoveAlike(s, t, m.p, k, stack[|stack| - 1], |stack| <= cap);
          HarmlessMove(t, k, stack, cap);
          EnterKeepsRegions(s, k, stack, |stack| <= cap);
          AddedIsQuiet(s, t, m, Reach(a), Enter(stack, a), cap);
        }
      }
    }
  }

  lemma {:induction false} AddedAfterOpaque(s: string, t: string, m: Marks, k: nat, stack: seq<Frame>, cap: nat)
    requires LineAdded(s, t, m) && k < m.p && Regions(stack) && stack != [] && OpaqueEnd(s, k).Some?
    requires Run(s, OpaqueEnd(s, k).value, stack, cap) == NOTHING
    ensures Run(t, k, stack, cap) == NOTHING
    decreases m.p - k, 0
  {
    var e := OpaqueEnd(s, k).value;
    if s[k] == '"' { StringAlike(s, t, m, k); } else { OpaqueAlike(s, t, m, k); }
    Moves(t, k, stack, cap);
    if e < m.p {
      AddedIsQuiet(s, t, m, e, stack, cap);
    } else {
      if s[k] == '"' { LineSplitsString(t, m, stack, cap); }
      TailAfterLine(s, t, m, e, stack, cap);
    }
  }

  lemma {:induction false} AtMarksIsQuiet(s: string, t: string, m: Marks, stack: seq<Frame>, cap: nat)
    requires Run(s, 0, stack, cap) == NOTHING && stack != [] && Regions(stack)
    requires m.p <= |s| && (m.p == 0 || s[m.p - 1] == '\n')
    requires Stands(t, m) && |t| - m.end == |s| - m.p && Same(s, m.p, t, m.end, |s| - m.p)
    requires forall i | 0 <= i < m.p :: t[i] == s[i]
    ensures Run(t, 0, stack, cap) == NOTHING
  {
    if m.p == 0 {
      LineIsPassed(t, m, stack, cap);
      TailIsQuiet(s, 0, t, m.end, stack, cap);
    } else {
      AddedIsQuiet(s, t, m, 0, stack, cap);
    }
  }

  lemma {:induction false} AddedLineIsQuiet(s: string, p: nat, line: string, t: string)
    requires Scan(s) == NOTHING && p <= |s| && (p == 0 || s[p - 1] == '\n')
    requires line == LINE && Reads(t, p, line) && |t| == |s| + |line| && Same(s, p, t, p + |line|, |s| - p)
    requires forall i | 0 <= i < p :: t[i] == s[i]
    ensures Scan(t) == NOTHING
  {
    var m := LineStands(t, p, line);
    AtMarksIsQuiet(s, t, m, [DOCUMENT], MAX_SCAN_DEPTH);
  }

  lemma {:induction false} LineReads(s: string, p: nat, line: string, t: string)
    requires p <= |s| && t == s[..p] + line + s[p..]
    ensures Reads(t, p, line) && |t| == |s| + |line| && Same(s, p, t, p + |line|, |s| - p)
    ensures forall i | 0 <= i < p :: t[i] == s[i]
  {
    var (a, b) := (s[..p], line + s[p..]);
    assert t == a + b;
    ReadsSlice(t, 0, |t|);
    assert t[0..|t|] == t;
    ReadsBoth(t, 0, a, b);
    ReadsBoth(t, p, line, s[p..]);
    assert s[p..] == s[p..p + (|s| - p)];
    ReadsIsSame(s, p, |s| - p, t, p + |line|);
  }

  /** A document without calls has none when the line is added at the start of any of its lines, even
      inside a comment, a string or raw text. */
  lemma LineAnywhereIsQuiet(s: string, p: nat)
    requires Scan(s) == NOTHING && p <= |s| && (p == 0 || s[p - 1] == '\n')
    ensures Scan(WithLine(s, p)) == NOTHING
  {
    LineReads(s, p, LINE, WithLine(s, p));
    AddedLineIsQuiet(s, p, LINE, WithLine(s, p));
  }

  lemma AddingIsQuiet(content: string, imports: string -> bool)
    requires Scan(content) == NOTHING
    ensures match AddBasedImport(content, imports(content))
            case Some(text) => Scan(text) == NOTHING
            case None => !imports(content) && InsertAt(content).None?
  {
    if InsertAt(content).Some? { LineAnywhereIsQuiet(content, InsertAt(content).value); }
  }

  /** So whatever Preprocess returns, with or without an import line, holds no call; and it fails exactly
      when what it has assembled ends within an import line. */
  lemma ReturnedIsQuiet(s: string, parse: string -> Options, draw: (string, Options) -> Option<string>,
                        imports: string -> bool)
    requires Scan(s).skipped == [] && AllDrawn(Scan(s).blocks, parse, draw)
    requires forall code, options :: var svg := draw(code, options); svg.Some? ==> Silence.Base64(svg.value)
    requires PlainCalls(Scan(s).blocks, parse) && RoomForPieces(Scan(s), parse)
    ensures Spans(s, 0, Scan(s).blocks)
    ensures var (blocks, pieces) := (Scan(s).blocks, Pieces(Scan(s).blocks, parse, draw));
            var content := Splice(s, 0, blocks, pieces);
            match Assembled(s, blocks, pieces, imports)
            case Some(text) => Scan(text) == NOTHING
            case None => blocks != [] && !imports(content) && InsertAt(content).None?
  {
    var (blocks, pieces) := (Scan(s).blocks, Pieces(Scan(s).blocks, parse, draw));
    PreprocessedDocumentIsQuiet(s, parse, draw);
    if blocks != [] { AddingIsQuiet(Splice(s, 0, blocks, pieces), imports); }
  }

  lemma {:induction false} NameToEnd(s: string, k: nat)
    requires k <= |s| && forall i | k <= i < |s| :: IsIdentChar(s[i])
    ensures IdentEnd(s, k) == |s|
    decreases |s| - k
  {
    if k < |s| { NameToEnd(s, k + 1); }
  }

  lemma CallThenImport(s: string)
    requires |s| > 7 && s[0] == '#' && s[1] == 'd' && s[2] == '2' && s[3] == '[' && s[4] == ']'
    requires s[5] == '\n' && s[6] == '#' && s[7] == 'i' && forall i | 7 <= i < |s| :: IsIdentChar(s[i])
    ensures Spans(s, 0, Scan(s).blocks)
    ensures Scan(s).skipped == [] && |Scan(s).blocks| == 1 && Scan(s).blocks[0].start == 0 && Scan(s).blocks[0].end == 5
  {
    ScanSpans(s);
    NameToEnd(s, 7);
    Moves(s, 6, [DOCUMENT], MAX_SCAN_DEPTH);
    assert Run(s, 6, [DOCUMENT], MAX_SCAN_DEPTH) == NOTHING;
    Moves(s, 5, [DOCUMENT], MAX_SCAN_DEPTH);
    assert Run(s, 5, [DOCUMENT], MAX_SCAN_DEPTH) == NOTHING;
    assert IdentEnd(s, 1) == IdentEnd(s, 2) == IdentEnd(s, 3) == 3;
    assert BracketEnd(s, 4, 1, true) == Some(5);
    Moves(s, 0, [DOCUMENT], MAX_SCAN_DEPTH);
    assert TryD2(s, 0, 3, false) == Emitted(D2Block(0, 5, "", s[4..4], false));
  }

  lemma ImportStaysOpen(s: string, word: string, blocks: seq<D2Block>, piece: string)
    requires |blocks| == 1 && blocks[0].start == 0 && blocks[0].end == 5 && Spans(s, 0, blocks)
    requires word == "#import" && s[5..] == ['\n'] + word && forall i | 0 <= i < |word| :: word[i] != '\n'
    ensures InsertAt(Splice(s, 0, blocks, [piece])).None?
  {
    var (c, k) := (Splice(s, 0, blocks, [piece]), |piece| + 1);
    assert Splice(s, 5, blocks[1..], [piece][1..]) == s[5..] && s[0..0] + piece == piece;
    assert c == piece + ['\n'] + word;
    assert c[k..] == word && c[k - 1] == '\n';
    ReadsSlice(c, k, |c|);
    assert c[k..|c|] == word;
    CharOver(c, '\n', k, |c|);
    OpenImportIsLast(c, k);
  }

  /** A document that ends so: whatever its diagram becomes, the line has no place in it. */
  lemma UnfinishedImport(piece: string) returns (s: string)
    ensures s == "#d2[]\n#import" && Scan(s).skipped == [] && |Scan(s).blocks| == 1
    ensures Spans(s, 0, Scan(s).blocks) && InsertAt(Splice(s, 0, Scan(s).blocks, [piece])).None?
  {
    s := "#d2[]\n#import";
    CallThenImport(s);
    ImportStaysOpen(s, "#import", Scan(s).blocks, piece);
  }
}
