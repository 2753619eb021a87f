/** Preprocess: render forward, replace backward. */
module Preprocessing {
  import opened Text
  import opened ScanMachine
  import opened Blocks
  import Scanning

  type Options = map<string, string>

  function PadOf(options: Options): Option<string> {
    if "pad" in options && options["pad"] != "none" then Some(options["pad"]) else None
  }

  function WidthOf(options: Options): Option<string> {
    var width := if "width" in options then options["width"] else "100%";
    if width == "none" || width == "intrinsic" then None else Some(width)
  }

  function WidthTail(width: Option<string>): string {
    match width
    case None => ")"
    case Some(w) => (", width: " + w) + ")"
  }

  /** An image call after its parenthesis; `words` and `kind` are the fixed format argument. */
  function ImageCall(b64: string, words: string, kind: string, width: Option<string>): string {
    "decode64" + ("(" + (("\"" + b64 + "\"") + (")" + (words + (("\"" + kind + "\"") + WidthTail(width))))))
  }

  /** Everything after the first parenthesis of a replacement. */
  function Tail(b64: string, words: string, kind: string, width: Option<string>, pad: Option<string>): string {
    match pad
    case None => ImageCall(b64, words, kind, width)
    case Some(p) => (p + ", ") + ("image" + ("(" + (ImageCall(b64, words, kind, width) + ")")))
  }

  function Word(pad: Option<string>): string {
    if pad.None? then "image" else "pad"
  }

  /** A replacement: the hash in markup only, a name, a parenthesis, the rest. */
  function Shape(ctx: bool, b64: string, words: string, kind: string, width: Option<string>,
                 pad: Option<string>): string {
    (if ctx then "" else "#") + (Word(pad) + ("(" + Tail(b64, words, kind, width, pad)))
  }

  /** svgToTypstImage, given the SVG already in base64. */
  function TypstImage(b64: string, options: Options, codeContext: bool): string {
    Shape(codeContext, b64, ", format: ", "svg", WidthOf(options), PadOf(options))
  }

  /** strings.Count(s, "\n"). */
  function Newlines(s: string): nat {
    if s == "" then 0 else Newlines(s[..|s| - 1]) + if s[|s| - 1] == '\n' then 1 else 0
  }

  /** strings.LastIndex(s, "\n") + 1. */
  function LineStart(s: string): (n: nat)
    ensures n <= |s|
  {
    if s == "" || s[|s| - 1] == '\n' then |s| else LineStart(s[..|s| - 1])
  }

  /** lineCol: line and column of an offset, both from 1. */
  function LineCol(content: string, offset: nat): (nat, nat) {
    var before := content[..if offset > |content| then |content| else offset];
    (1 + Newlines(before), |before| - LineStart(before) + 1)
  }

  /** Later offsets have later coordinates, so a reported position names one byte of the document. */
  lemma {:induction false} LineColIncreases(content: string, a: nat, b: nat)
    requires a < b <= |content|
    ensures var x, y := LineCol(content, a), LineCol(content, b);
            x.0 < y.0 || (x.0 == y.0 && x.1 < y.1)
    decreases b
  {
    assert content[..b][..b - 1] == content[..b - 1];
    if a < b - 1 {
      LineColIncreases(content, a, b - 1);
    }
  }

  /** Where the n-th line after the one at k begins. */
  function SkipLines(s: string, k: nat, n: nat): nat
    requires k <= |s|
    decreases |s| - k
  {
    if n == 0 || k == |s| then k else SkipLines(s, k + 1, if s[k] == '\n' then n - 1 else n)
  }

  lemma NewlinesNext(s: string, k: nat)
    requires k < |s|
    ensures Newlines(s[..k + 1]) == Newlines(s[..k]) + if s[k] == '\n' then 1 else 0
  {
    assert s[..k + 1][..k] == s[..k];
  }

  lemma {:induction false} FewerBefore(s: string, k: nat, b: nat)
    requires k <= b <= |s|
    ensures Newlines(s[..k]) <= Newlines(s[..b])
    decreases b
  {
    if k < b {
      NewlinesNext(s, b - 1);
      FewerBefore(s, k, b - 1);
    }
  }

  /** No newline from k on: the line of b begins at k. */
  lemma {:induction false} SameLine(s: string, k: nat, b: nat)
    requires 0 < k <= b <= |s| && s[k - 1] == '\n' && Newlines(s[..b]) == Newlines(s[..k])
    ensures LineStart(s[..b]) == k
    decreases b
  {
    if k < b {
      NewlinesNext(s, b - 1);
      FewerBefore(s, k, b - 1);
      assert s[..b][..b - 1] == s[..b - 1];
      SameLine(s, k, b - 1);
    }
  }

  lemma {:induction false} LinesLead(s: string, k: nat, b: nat)
    requires k <= b <= |s|
    ensures Newlines(s[..k]) <= Newlines(s[..b])
    ensures var n := Newlines(s[..b]) - Newlines(s[..k]);
            SkipLines(s, k, n) == if n == 0 then k else LineStart(s[..b])
    decreases b - k
  {
    FewerBefore(s, k, b);
    if k < b {
      NewlinesNext(s, k);
      LinesLead(s, k + 1, b);
      if s[k] == '\n' && Newlines(s[..b]) == Newlines(s[..k + 1]) { SameLine(s, k + 1, b); }
    }
  }

  lemma {:induction false} FirstLine(s: string)
    requires Newlines(s) == 0
    ensures LineStart(s) == 0
  {
    if s != "" { FirstLine(s[..|s| - 1]); }
  }

  /** The reported position leads back to the offset: its line, and so many bytes into it. */
  lemma LineColLeadsBack(content: string, offset: nat)
    requires offset <= |content|
    ensures var (line, col) := LineCol(content, offset);
            line >= 1 && col >= 1 && SkipLines(content, 0, line - 1) + (col - 1) == offset
  {
    LinesLead(content, 0, offset);
    assert Newlines(content[..0]) == 0;
    if Newlines(content[..offset]) == 0 { FirstLine(content[..offset]); }
  }

  /** Spans in order, disjoint and in bounds, from k on. */
  ghost predicate Spans(s: string, k: nat, blocks: seq<D2Block>)
    decreases |blocks|
  {
    k <= |s| && (blocks == [] || (k <= blocks[0].start <= blocks[0].end <= |s| && Spans(s, blocks[0].end, blocks[1..])))
  }

  /** The text from k on, with each span replaced: the gaps verbatim, the pieces between them. */
  function Splice(s: string, k: nat, blocks: seq<D2Block>, pieces: seq<string>): string
    requires |blocks| == |pieces| && Spans(s, k, blocks)
    decreases |blocks|
  {
    if blocks == [] then s[k..]
    else s[k..blocks[0].start] + pieces[0] + Splice(s, blocks[0].end, blocks[1..], pieces[1..])
  }

  lemma {:induction false} OrderlyBlocksAreSpans(s: string, k: nat, out: Output)
    requires k <= |s| && Orderly(s, k, out)
    ensures Spans(s, k, out.blocks)
    decreases |out.blocks|
  {
    if out.blocks != [] {
      var rest := Output(out.blocks[1..], [], []);
      OrderlyBlocksAreSpans(s, out.blocks[0].end, rest);
    }
  }

  lemma ScanSpans(s: string)
    ensures Spans(s, 0, Scan(s).blocks)
  {
    RunIsOrderly(s, 0, [DOCUMENT], MAX_SCAN_DEPTH);
    OrderlyBlocksAreSpans(s, 0, Scan(s));
  }

  lemma Regroup(a: string, b: string, c: string, d: string)
    ensures (a + b) + c + d == a + (b + c + d)
  {
  }

  lemma SpliceFrom(s: string, k: nat, m: nat, blocks: seq<D2Block>, pieces: seq<string>)
    requires k <= m && |blocks| == |pieces| && Spans(s, m, blocks)
    ensures Spans(s, k, blocks)
    ensures Splice(s, k, blocks, pieces) == s[k..m] + Splice(s, m, blocks, pieces)
  {
    if blocks == [] {
      assert s[k..] == s[k..m] + s[m..];
    } else {
      var a, b := s[k..m], s[m..blocks[0].start];
      var c := Splice(s, blocks[0].end, blocks[1..], pieces[1..]);
      assert s[k..blocks[0].start] == a + b;
      Regroup(a, b, pieces[0], c);
      assert Splice(s, m, blocks, pieces) == b + pieces[0] + c;
    }
  }

  lemma {:induction false} SpansTail(s: string, k: nat, blocks: seq<D2Block>, i: nat)
    requires Spans(s, k, blocks) && i < |blocks|
    ensures blocks[i].start <= blocks[i].end && Spans(s, blocks[i].end, blocks[i + 1..])
    ensures k <= blocks[i].start
    decreases i
  {
    if i > 0 {
      SpansTail(s, blocks[0].end, blocks[1..], i - 1);
      assert blocks[1..][i - 1 + 1..] == blocks[i + 1..];
    }
  }

  /** The replacement loop: last block first, so that the earlier offsets stay valid. */
  method ReplaceBackward(src: string, blocks: seq<D2Block>, rendered: seq<string>) returns (content: string)
    requires |blocks| == |rendered| && Spans(src, 0, blocks)
    ensures content == Splice(src, 0, blocks, rendered)
  {
    content := src;
    var i := |blocks|;
    assert src[0..] == src;
    while i > 0
      invariant 0 <= i <= |blocks|
      invariant Spans(src, 0, blocks[i..]) && content == Splice(src, 0, blocks[i..], rendered[i..])
    {
      i := i - 1;
      var block := blocks[i];
      SpansTail(src, 0, blocks, i);
      SpliceFrom(src, 0, block.end, blocks[i + 1..], rendered[i + 1..]);
      ghost var rest := Splice(src, block.end, blocks[i + 1..], rendered[i + 1..]);
      assert content[..block.start] == src[0..block.start];
      assert content[block.end..] == rest;
      content := content[..block.start] + rendered[i] + content[block.end..];
      assert blocks[i..][1..] == blocks[i + 1..] && rendered[i..][1..] == rendered[i + 1..];
    }
    assert blocks[0..] == blocks && rendered[0..] == rendered;
  }

  /** By how much the text is longer after the first n replacements. */
  function Growth(blocks: seq<D2Block>, pieces: seq<string>, n: nat): int
    requires n <= |blocks| == |pieces|
  {
    if n == 0 then 0
    else |pieces[0]| - (blocks[0].end - blocks[0].start) + Growth(blocks[1..], pieces[1..], n - 1)
  }

  /** The text between the n-th block and the one after it. */
  predicate InGap(s: string, blocks: seq<D2Block>, n: nat, i: nat) {
    n <= |blocks| && i < |s| && (n > 0 ==> blocks[n - 1].end <= i) && (n < |blocks| ==> i < blocks[n].start)
  }

  lemma {:induction false} SpliceLength(s: string, k: nat, blocks: seq<D2Block>, pieces: seq<string>)
    requires |blocks| == |pieces| && Spans(s, k, blocks)
    ensures |Splice(s, k, blocks, pieces)| == |s| - k + Growth(blocks, pieces, |blocks|)
    decreases |blocks|
  {
    if blocks != [] { SpliceLength(s, blocks[0].end, blocks[1..], pieces[1..]); }
  }

  lemma {:induction false} EndsInOrder(s: string, k: nat, blocks: seq<D2Block>, n: nat)
    requires Spans(s, k, blocks) && n < |blocks|
    ensures blocks[0].end <= blocks[n].end
    decreases n
  {
    if n > 0 { SpansTail(s, blocks[0].end, blocks[1..], n - 1); }
  }

  lemma {:induction false} GapIsKept(s: string, k: nat, blocks: seq<D2Block>, pieces: seq<string>, n: nat, i: nat)
    requires |blocks| == |pieces| && Spans(s, k, blocks) && InGap(s, blocks, n, i) && k <= i
    ensures var (t, at) := (Splice(s, k, blocks, pieces), i - k + Growth(blocks, pieces, n));
            0 <= at < |t| && t[at] == s[i]
    decreases |blocks|
  {
    if n > 0 {
      EndsInOrder(s, k, blocks, n - 1);
      GapIsKept(s, blocks[0].end, blocks[1..], pieces[1..], n - 1, i);
      var rest := Splice(s, blocks[0].end, blocks[1..], pieces[1..]);
      var front := s[k..blocks[0].start] + pieces[0];
      var at := i - blocks[0].end + Growth(blocks[1..], pieces[1..], n - 1);
      assert (front + rest)[|front| + at] == rest[at];
    }
  }

  lemma {:induction false} PieceIsPlaced(s: string, k: nat, blocks: seq<D2Block>, pieces: seq<string>, n: nat)
    requires |blocks| == |pieces| && Spans(s, k, blocks) && n < |blocks|
    ensures var (t, at) := (Splice(s, k, blocks, pieces), blocks[n].start - k + Growth(blocks, pieces, n));
            0 <= at <= at + |pieces[n]| <= |t| && t[at..at + |pieces[n]|] == pieces[n]
    decreases |blocks|
  {
    var front := s[k..blocks[0].start] + pieces[0];
    var rest := Splice(s, blocks[0].end, blocks[1..], pieces[1..]);
    if n > 0 {
      PieceIsPlaced(s, blocks[0].end, blocks[1..], pieces[1..], n - 1);
      var at := blocks[n].start - blocks[0].end + Growth(blocks[1..], pieces[1..], n - 1);
      assert (front + rest)[|front| + at..|front| + at + |pieces[n]|] == rest[at..at + |pieces[n]|];
    }
  }

  /** Every replacement stands where its call stood, moved by what the earlier ones added; every byte outside
      the calls is kept; and there is nothing else. */
  lemma SplicedExactly(s: string, blocks: seq<D2Block>, pieces: seq<string>)
    requires |blocks| == |pieces| && Spans(s, 0, blocks)
    ensures var t := Splice(s, 0, blocks, pieces);
            && |t| == |s| + Growth(blocks, pieces, |blocks|)
            && (forall n: nat, i: nat | InGap(s, blocks, n, i) ::
                  var at := i + Growth(blocks, pieces, n); 0 <= at < |t| && t[at] == s[i])
            && (forall n | 0 <= n < |blocks| ::
                  var at := blocks[n].start + Growth(blocks, pieces, n);
                  0 <= at <= at + |pieces[n]| <= |t| && t[at..at + |pieces[n]|] == pieces[n])
  {
    SpliceLength(s, 0, blocks, pieces);
    forall n: nat, i: nat | InGap(s, blocks, n, i)
      ensures var (t, at) := (Splice(s, 0, blocks, pieces), i + Growth(blocks, pieces, n));
              0 <= at < |t| && t[at] == s[i]
    {
      GapIsKept(s, 0, blocks, pieces, n, i);
    }
    forall n | 0 <= n < |blocks|
      ensures var (t, at) := (Splice(s, 0, blocks, pieces), blocks[n].start + Growth(blocks, pieces, n));
              0 <= at <= at + |pieces[n]| <= |t| && t[at..at + |pieces[n]|] == pieces[n]
    {
      PieceIsPlaced(s, 0, blocks, pieces, n);
    }
  }

  // addBasedImport.

  const IMPORT := "import "
  const HOST := "preview"
  const BASED := "based:0.2.0"
  const NAME := ": decode64"

  function Line(word: string, host: string, pkg: string, name: string): string {
    "#" + (word + ("\"@" + (host + ("/" + (pkg + ("\"" + (name + "\n")))))))
  }

  /** `#import "@preview/based:0.2.0": decode64` and a newline. */
  const LINE := Line(IMPORT, HOST, BASED, NAME)

  /** A line starts at k with #import. */
  predicate ImportAt(s: string, k: nat) {
    k <= |s| && (k == 0 || s[k - 1] == '\n') && Reads(s, k, "#import")
  }

  /** Where the last such line up to k starts. */
  function LastImport(s: string, k: nat): (r: Option<nat>)
    requires k <= |s|
    ensures r.Some? ==> r.value <= k && ImportAt(s, r.value)
    ensures forall i | (if r.Some? then r.value < i else 0 <= i) && i <= k :: !ImportAt(s, i)
  {
    if ImportAt(s, k) then Some(k) else if k == 0 then None else LastImport(s, k - 1)
  }

  /** Where the new line goes: to the top, or past the newline after the last import line. None when
      that lies outside the text. */
  function InsertAt(s: string): (r: Option<nat>)
    ensures r.Some? ==> r.value <= |s| && (r.value == 0 || s[r.value - 1] == '\n')
  {
    match LastImport(s, |s|)
    case None => Some(0)
    case Some(k) =>
      var p := FindChar(s, '\n', k) + 1;
      if p > |s| then None else Some(p)
  }

  lemma OpenImportIsLast(s: string, k: nat)
    requires ImportAt(s, k) && FindChar(s, '\n', k) == |s|
    ensures InsertAt(s).None?
  {
    var last := LastImport(s, |s|);
    NoneBefore(s, '\n', k);
  }

  /** It lies outside exactly when the text ends within an import line. */
  lemma OutsideExactly(s: string)
    ensures InsertAt(s).None? <==> exists k :: ImportAt(s, k) && FindChar(s, '\n', k) == |s|
  {
    if k :| ImportAt(s, k) && FindChar(s, '\n', k) == |s| {
      OpenImportIsLast(s, k);
    }
  }

  ghost predicate IsLastImport(s: string, k: nat) {
    ImportAt(s, k) && forall i | k < i <= |s| :: !ImportAt(s, i)
  }

  /** The top of a text without imports; otherwise the start of the line after the last of them. */
  ghost predicate IsPlace(s: string, p: nat) {
    if exists k :: ImportAt(s, k) then
      exists k | 0 <= k < p <= |s| :: IsLastImport(s, k) && s[p - 1] == '\n' && '\n' !in s[k..p - 1]
    else
      p == 0
  }

  lemma PlaceExactly(s: string, p: nat)
    ensures InsertAt(s) == Some(p) <==> IsPlace(s, p)
  {
    match LastImport(s, |s|)
    case None =>
    case Some(last) =>
      assert IsLastImport(s, last);
      var e := FindChar(s, '\n', last);
      NoneBefore(s, '\n', last);
      if InsertAt(s) == Some(p) { assert '\n' !in s[last..p - 1]; }
      if k :| 0 <= k < p <= |s| && IsLastImport(s, k) && s[p - 1] == '\n' && '\n' !in s[k..p - 1] {
        assert k == last;
        forall i | k <= i < p - 1 ensures s[i] != '\n' { assert s[k..p - 1][i - k] == s[i]; }
        CharIsAt(s, '\n', k, p - 1);
      }
  }

  lemma LineReads()
    ensures LINE == "#import \"@preview/based:0.2.0\": decode64\n"
  {}

  /** The content with the line at p. */
  function WithLine(content: string, p: nat): string
    requires p <= |content|
  {
    content[..p] + LINE + content[p..]
  }

  /** `imported` says that the line is there already. None: a slice out of range. */
  function AddBasedImport(content: string, imported: bool): Option<string> {
    if imported then Some(content) else
    match InsertAt(content)
    case None => None
    case Some(p) => Some(WithLine(content, p))
  }

  datatype Outcome =
    | Processed(text: string)
    | SliceOutOfRange
    | CannotExtract(line: nat, col: nat, reason: Reason)
    | RenderFailed(diagram: nat, of: nat)

  /** The piece that stands for a block once its SVG has been drawn. */
  function Piece(b: D2Block, svg: string, parse: string -> Options): string {
    TypstImage(svg, parse(b.options), b.codeContext)
  }

  /** The drawings, in document order, of blocks that can all be drawn. */
  predicate AllDrawn(blocks: seq<D2Block>, parse: string -> Options, draw: (string, Options) -> Option<string>) {
    forall x | 0 <= x < |blocks| :: draw(blocks[x].code, parse(blocks[x].options)).Some?
  }

  function Pieces(blocks: seq<D2Block>, parse: string -> Options,
                  draw: (string, Options) -> Option<string>): (r: seq<string>)
    requires AllDrawn(blocks, parse, draw)
    ensures |r| == |blocks|
    ensures forall i :: 0 <= i < |r| ==>
              r[i] == Piece(blocks[i], draw(blocks[i].code, parse(blocks[i].options)).value, parse)
  {
    seq(|blocks|, i requires 0 <= i < |blocks| =>
      Piece(blocks[i], draw(blocks[i].code, parse(blocks[i].options)).value, parse))
  }

  predicate DrawnAs(b: D2Block, parse: string -> Options, draw: (string, Options) -> Option<string>, piece: string) {
    var svg := draw(b.code, parse(b.options));
    svg.Some? && piece == Piece(b, svg.value, parse)
  }

  lemma DrawnInFull(blocks: seq<D2Block>, parse: string -> Options, draw: (string, Options) -> Option<string>,
                    rendered: seq<string>)
    requires |rendered| == |blocks| && forall j | 0 <= j < |blocks| :: DrawnAs(blocks[j], parse, draw, rendered[j])
    ensures AllDrawn(blocks, parse, draw) && rendered == Pieces(blocks, parse, draw)
  {
    assert forall j | 0 <= j < |blocks| :: DrawnAs(blocks[j], parse, draw, rendered[j]);
  }

  /** The rendering loop, in document order; it stops at the first block that cannot be drawn. */
  method RenderForward(blocks: seq<D2Block>, parse: string -> Options, draw: (string, Options) -> Option<string>)
      returns (rendered: seq<string>, broken: nat)
    ensures broken <= |blocks| && AllDrawn(blocks[..broken], parse, draw)
    ensures broken < |blocks| ==> draw(blocks[broken].code, parse(blocks[broken].options)).None?
    ensures broken == |blocks| ==> AllDrawn(blocks, parse, draw) && rendered == Pieces(blocks, parse, draw)
  {
    rendered := [];
    for i := 0 to |blocks|
      invariant |rendered| == i && forall j | 0 <= j < i :: DrawnAs(blocks[j], parse, draw, rendered[j])
    {
      var block := blocks[i];
      var svg := draw(block.code, parse(block.options));
      if svg.None? {
        DrawnInFull(blocks[..i], parse, draw, rendered);
        return rendered, i;
      }
      rendered := rendered + [Piece(block, svg.value, parse)];
    }
    DrawnInFull(blocks, parse, draw, rendered);
    assert blocks[..|blocks|] == blocks;
    broken := |blocks|;
  }

  /** What Preprocess makes of a source whose calls can all be drawn. */
  function Assembled(src: string, blocks: seq<D2Block>, pieces: seq<string>, imports: string -> bool): Option<string>
    requires |blocks| == |pieces| && Spans(src, 0, blocks)
  {
    if blocks == [] then Some(src) else
    var content := Splice(src, 0, blocks, pieces);
    AddBasedImport(content, imports(content))
  }

  /** Preprocess. `parse` reads an option list, `draw` runs d2 and gives the SVG in base64, or nothing
      when the diagram is broken, and `imports` looks for the import line. */
  method Preprocess(src: string, parse: string -> Options, draw: (string, Options) -> Option<string>,
                    imports: string -> bool)
    returns (r: Outcome)
    ensures var out := Scan(src);
            && Spans(src, 0, out.blocks)
            && (out.skipped != [] ==>
                  r == CannotExtract(LineCol(src, out.skipped[0].offset).0, LineCol(src, out.skipped[0].offset).1,
                                     out.skipped[0].reason))
            && (out.skipped == [] && AllDrawn(out.blocks, parse, draw) ==>
                  match Assembled(src, out.blocks, Pieces(out.blocks, parse, draw), imports)
                  case None => r == SliceOutOfRange
                  case Some(text) => r == Processed(text))
            && (out.skipped == [] && !AllDrawn(out.blocks, parse, draw) ==>
                  // the diagram named is the first broken one
                  && r.RenderFailed? && r.of == |out.blocks| && 1 <= r.diagram <= r.of
                  && var broken := out.blocks[r.diagram - 1];
                  && draw(broken.code, parse(broken.options)).None?
                  && AllDrawn(out.blocks[..r.diagram - 1], parse, draw))
  {
    var blocks, skipped := Scanning.ScanD2Calls(src);
    ScanSpans(src);
    if |skipped| > 0 {
      var site := skipped[0];
      var (line, col) := LineCol(src, site.offset);
      return CannotExtract(line, col, site.reason);
    }
    if |blocks| == 0 {
      return Processed(src);
    }
    var rendered, broken := RenderForward(blocks, parse, draw);
    if broken < |blocks| {
      return RenderFailed(broken + 1, |blocks|);
    }
    var content := ReplaceBackward(src, blocks, rendered);
    var text := AddBasedImport(content, imports(content));
    return if text.Some? then Processed(text.value) else SliceOutOfRange;
  }
}
