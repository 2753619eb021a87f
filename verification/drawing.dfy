/** What can be read off a replacement: the drawing, its width, its padding; and that the processed
    document carries every drawing. */
module Drawings {
  import opened Text
  import opened Lexing
  import opened ScanMachine
  import opened Preprocessing
  import Rescan
  import Silence

  // The text of a replacement.

  /** The padding that is asked for: none for the word none. */
  function Padded(options: Options): string {
    if "pad" !in options || options["pad"] == "none" then "" else "pad(" + options["pad"] + ", "
  }

  /** The width that is asked for, or all of it; and nothing for the words none and intrinsic. */
  function Width(options: Options): string {
    var width := if "width" in options then options["width"] else "100%";
    if width == "none" || width == "intrinsic" then "" else ", width: " + width
  }

  /** Up to the drawing, and after it. */
  function Front(options: Options, code: bool): string {
    (if code then "" else "#") + Padded(options) + "image(decode64("
  }

  function Back(options: Options): string {
    "), format: \"svg\"" + Width(options) + ")" + if Padded(options) == "" then "" else ")"
  }

  lemma {:induction false} Grouped(a: string, b: string, c: string)
    ensures a + (b + c) == a + b + c
  {}

  /** An image call, flat. */
  lemma {:induction false} ImageFlat(front: string, open: string, quote: string, b64: string, close: string,
                                     words: string, kind: string, tail: string)
    ensures front + (open + ((quote + b64 + quote) + (close + (words + (kind + tail)))))
         == front + open + quote + b64 + quote + (close + words + kind + tail)
  {
    var back := close + (words + (kind + tail));
    Grouped(close, words, kind + tail);
    Grouped(close + words, kind, tail);
    Grouped(open, quote + b64 + quote, back);
    Grouped(open, quote + b64, quote);
    Grouped(open, quote, b64);
    Grouped(front, open + quote + b64 + quote, back);
    Grouped(front, open + quote + b64, quote);
    Grouped(front, open + quote, b64);
    Grouped(front, open, quote);
  }

  lemma {:induction false} ImageExactly(b64: string, width: Option<string>)
    ensures ImageCall(b64, ", format: ", "svg", width)
         == "decode64(" + "\"" + b64 + "\"" + ("), format: \"svg\"" + WidthTail(width))
  {
    ImageFlat("decode64", "(", "\"", b64, ")", ", format: ", "\"" + "svg" + "\"", WidthTail(width));
    assert "decode64" + "(" == "decode64(";
    assert ")" + ", format: " + ("\"" + "svg" + "\"") == "), format: \"svg\"";
  }

  lemma {:induction false} PlainBack(options: Options, back: string)
    requires PadOf(options).None? && back == "), format: \"svg\"" + WidthTail(WidthOf(options))
    ensures Back(options) == back
  {
    Grouped("), format: \"svg\"", Width(options), ")");
  }

  lemma {:induction false} PaddedBack(options: Options, back: string)
    requires PadOf(options).Some? && back == "), format: \"svg\"" + WidthTail(WidthOf(options))
    ensures Back(options) == back + ")"
  {
    Grouped("), format: \"svg\"", Width(options), ")");
  }

  lemma {:induction false} Quoted(front: string, quote: string, drawing: string, back: string)
    ensures front + quote + drawing + quote + back == front + (quote + drawing + quote + back)
  {
    Grouped(front, quote + drawing + quote, back);
    Grouped(front, quote + drawing, quote);
    Grouped(front, quote, drawing);
  }

  /** One front for four. */
  lemma {:induction false} Joins(hash: string, word: string, open: string, call: string, quote: string,
                                 drawing: string, back: string, all: string)
    requires all == word + open + call
    ensures hash + (word + (open + (call + quote + drawing + quote + back)))
         == hash + all + quote + drawing + quote + back
  {
    var rest := quote + drawing + quote + back;
    Quoted(call, quote, drawing, back);
    Grouped(open, call, rest);
    Grouped(word, open + call, rest);
    Grouped(word, open, call);
    Grouped(hash, all, rest);
    Quoted(hash + all, quote, drawing, back);
  }

  lemma {:induction false} PlainFlat(hash: string, drawing: string, back: string)
    ensures hash + ("image" + ("(" + ("decode64(" + "\"" + drawing + "\"" + back)))
         == hash + "" + "image(decode64(" + "\"" + drawing + "\"" + back
  {
    Joins(hash, "image", "(", "decode64(", "\"", drawing, back, "image(decode64(");
  }

  lemma {:induction false} PaddedFlat(hash: string, pad: string, drawing: string, back: string)
    ensures hash + ("pad" + ("(" + ((pad + ", ")
                                     + ("image" + ("(" + (("decode64(" + "\"" + drawing + "\"" + back) + ")"))))))
         == hash + ("pad(" + pad + ", ") + "image(decode64(" + "\"" + drawing + "\"" + (back + ")")
  {
    var image := "decode64(" + "\"" + drawing + "\"" + back;
    Grouped("decode64(" + "\"" + drawing + "\"", back, ")");
    Joins("", "image", "(", "decode64(", "\"", drawing, back + ")", "image(decode64(");
    var inner := "image" + ("(" + (image + ")"));
    Grouped("(", pad + ", ", inner);
    Grouped("pad", "(" + (pad + ", "), inner);
    Grouped("pad", "(", pad + ", ");
    Grouped("pad(", pad, ", ");
    Grouped(hash, "pad(" + pad + ", ", inner);
    Quoted("image(decode64(", "\"", drawing, back + ")");
    Quoted(hash + ("pad(" + pad + ", ") + "image(decode64(", "\"", drawing, back + ")");
    Grouped(hash + ("pad(" + pad + ", "), "image(decode64(", "\"" + drawing + "\"" + (back + ")"));
  }

  /** A replacement, exactly. */
  lemma {:induction false} PieceExactly(drawing: string, options: Options, code: bool)
    ensures TypstImage(drawing, options, code) == Front(options, code) + "\"" + drawing + "\"" + Back(options)
  {
    ImageExactly(drawing, WidthOf(options));
    var (hash, back) := (if code then "" else "#", "), format: \"svg\"" + WidthTail(WidthOf(options)));
    if PadOf(options).None? {
      PlainFlat(hash, drawing, back);
      PlainBack(options, back);
    } else {
      PaddedFlat(hash, PadOf(options).value, drawing, back);
      PaddedBack(options, back);
    }
  }

  // Reading it back.

  /** It begins with a hash exactly in markup. */
  lemma {:induction false} HashExactly(drawing: string, options: Options, code: bool)
    ensures var p := TypstImage(drawing, options, code); p != "" && (p[0] == '#' <==> !code)
  {
    PieceExactly(drawing, options, code);
    var front := Front(options, code);
    assert (front + "\"" + drawing + "\"" + Back(options))[0] == front[0];
  }

  /** The drawing stands between quotes at q. */
  predicate QuotedAt(t: string, q: nat, drawing: string) {
    && q + 1 + |drawing| < |t| && t[q] == '"' && t[q + 1 + |drawing|] == '"'
    && forall i | 0 <= i < |drawing| :: t[q + 1 + i] == drawing[i]
  }

  lemma {:induction false} QuotedAfter(front: string, drawing: string, back: string)
    ensures var t := front + "\"" + drawing + "\"" + back; QuotedAt(t, |front|, drawing) && t[..|front|] == front
  {
  }

  /** No quote and no backslash: true of base64, and of paddings that hold no string. */
  predicate NoQuotes(s: string) { forall i | 0 <= i < |s| :: s[i] != '"' && s[i] != '\\' }

  lemma {:induction false} QuoteFreeEnd(t: string, k: nat, e: nat)
    requires k <= e < |t| && t[e] == '"' && forall i | k <= i < e :: t[i] != '"' && t[i] != '\\'
    ensures StringEnd(t, k) == e + 1
    decreases e - k
  {
    if k < e { QuoteFreeEnd(t, k + 1, e); }
  }

  lemma {:induction false} FirstString(p: string, front: string, drawing: string)
    requires QuotedAt(p, |front|, drawing) && p[..|front|] == front && NoQuotes(front) && NoQuotes(drawing)
    ensures var q := |front|; FindChar(p, '"', 0) == q && StringEnd(p, q + 1) == q + 2 + |drawing|
    ensures p[|front| + 1..|front| + 1 + |drawing|] == drawing
  {
    var q := |front|;
    forall i | 0 <= i < q ensures p[i] != '"' { assert p[i] == front[i]; }
    CharIsAt(p, '"', 0, q);
    forall i | q + 1 <= i < q + 1 + |drawing| ensures p[i] != '"' && p[i] != '\\' {
      assert p[q + 1 + (i - q - 1)] == drawing[i - q - 1];
    }
    QuoteFreeEnd(p, q + 1, q + 1 + |drawing|);
  }

  lemma {:induction false} NoQuotesTwice(a: string, b: string)
    requires NoQuotes(a) && NoQuotes(b)
    ensures NoQuotes(a + b)
  {}

  lemma {:induction false} FrontHasNoQuotes(options: Options, code: bool)
    requires NoQuotes(Padded(options))
    ensures NoQuotes(Front(options, code))
  {
    NoQuotesTwice(if code then "" else "#", Padded(options));
    NoQuotesTwice((if code then "" else "#") + Padded(options), "image(decode64(");
  }

  /** The first string of a replacement is the drawing. */
  lemma {:induction false} FirstStringIsDrawing(drawing: string, options: Options, code: bool)
    requires NoQuotes(drawing) && NoQuotes(Padded(options))
    ensures var p := TypstImage(drawing, options, code); var q := FindChar(p, '"', 0);
            && q < |p| && StringEnd(p, q + 1) == q + 2 + |drawing| && p[q + 1..StringEnd(p, q + 1) - 1] == drawing
  {
    var (p, front) := (TypstImage(drawing, options, code), Front(options, code));
    PieceExactly(drawing, options, code);
    QuotedAfter(front, drawing, Back(options));
    FrontHasNoQuotes(options, code);
    FirstString(p, front, drawing);
  }

  /** So two drawings never give one replacement, whatever the options hold. */
  lemma {:induction false} DrawingsDiffer(a: string, b: string, options: Options, code: bool)
    requires TypstImage(a, options, code) == TypstImage(b, options, code)
    ensures a == b
  {
    var (front, back) := (Front(options, code), Back(options));
    PieceExactly(a, options, code);
    PieceExactly(b, options, code);
    QuotedAfter(front, a, back);
    QuotedAfter(front, b, back);
    assert |front + "\"" + a + "\"" + back| == |front| + 2 + |a| + |back|;
    assert |front + "\"" + b + "\"" + back| == |front| + 2 + |b| + |back|;
  }

  // The processed document.

  /** From k on the drawings stand in the text between quotes, one after the other. */
  ghost predicate Carries(t: string, k: nat, drawings: seq<string>)
    decreases |drawings|
  {
    drawings == [] ||
    exists q | k <= q < |t| :: QuotedAt(t, q, drawings[0]) && Carries(t, q + 2 + |drawings[0]|, drawings[1..])
  }

  lemma {:induction false} CarriesEarlier(t: string, k: nat, m: nat, drawings: seq<string>)
    requires Carries(t, m, drawings) && k <= m
    ensures Carries(t, k, drawings)
  {}

  ghost predicate Carry(piece: string, drawing: string) { exists q :: QuotedAt(piece, q, drawing) }

  /** Each piece carries its drawing somewhere. */
  ghost predicate EachCarries(pieces: seq<string>, drawings: seq<string>) {
    |pieces| == |drawings| && forall i | 0 <= i < |pieces| :: Carry(pieces[i], drawings[i])
  }

  lemma {:induction false} PieceIsSlice(t: string, w: nat, piece: string)
    requires Reads(t, w, piece)
    ensures w + |piece| <= |t| && forall i | 0 <= i < |piece| :: t[w + i] == piece[i]
    decreases |piece|
  {
    if piece != "" {
      PieceIsSlice(t, w + 1, piece[1..]);
      forall i | 0 <= i < |piece| ensures t[w + i] == piece[i] {
        if i > 0 { assert t[w + 1 + (i - 1)] == piece[1..][i - 1]; }
      }
    }
  }

  lemma {:induction false} QuotedInside(t: string, w: nat, piece: string, q: nat, drawing: string)
    requires Reads(t, w, piece) && QuotedAt(piece, q, drawing)
    ensures QuotedAt(t, w + q, drawing) && w + |piece| <= |t|
  {
    PieceIsSlice(t, w, piece);
    assert t[w + q] == piece[q] && t[w + (q + 1 + |drawing|)] == piece[q + 1 + |drawing|];
    forall i | 0 <= i < |drawing| ensures t[w + q + 1 + i] == drawing[i] {
      assert t[w + (q + 1 + i)] == piece[q + 1 + i];
    }
  }

  lemma {:induction false} OthersCarry(pieces: seq<string>, drawings: seq<string>)
    requires EachCarries(pieces, drawings) && pieces != []
    ensures EachCarries(pieces[1..], drawings[1..])
  {
    forall i | 0 <= i < |pieces[1..]| ensures Carry(pieces[1..][i], drawings[1..][i]) {
      assert Carry(pieces[i + 1], drawings[i + 1]);
    }
  }

  lemma {:induction false} SpliceCarries(s: string, i: nat, t: string, j: nat, blocks: seq<D2Block>,
                                         pieces: seq<string>, drawings: seq<string>)
    requires i <= |s| && |blocks| == |pieces| && Spans(s, i, blocks) && Rescan.Rest(t, j, Splice(s, i, blocks, pieces))
    requires EachCarries(pieces, drawings)
    ensures Carries(t, j, drawings)
    decreases |blocks|
  {
    if blocks != [] {
      var w := j + (blocks[0].start - i);
      Rescan.SpliceParts(s, i, t, j, blocks, pieces);
      var q :| QuotedAt(pieces[0], q, drawings[0]);
      QuotedInside(t, w, pieces[0], q, drawings[0]);
      OthersCarry(pieces, drawings);
      SpliceCarries(s, blocks[0].end, t, w + |pieces[0]|, blocks[1..], pieces[1..], drawings[1..]);
      CarriesEarlier(t, w + q + 2 + |drawings[0]|, w + |pieces[0]|, drawings[1..]);
    }
  }

  predicate OneLine(s: string) { '\n' !in s }

  lemma {:induction false} StringIsNotCut(s: string, p: nat, q: nat, d: string)
    requires p <= |s| && (p == 0 || s[p - 1] == '\n') && QuotedAt(s, q, d) && OneLine(d)
    ensures p <= q || q + 2 + |d| <= p
  {
    forall x | q <= x < q + 1 + |d| ensures s[x] != '\n' {
      if x > q { assert s[q + 1 + (x - q - 1)] == d[x - q - 1]; }
    }
  }

  lemma {:induction false} QuotedAgain(s: string, t: string, p: nat, n: nat, q: nat, d: string)
    requires p <= |s| && |t| == |s| + n && QuotedAt(s, q, d) && (p <= q || q + 2 + |d| <= p)
    requires (forall i | 0 <= i < p :: t[i] == s[i]) && forall i | p <= i < |s| :: t[i + n] == s[i]
    ensures QuotedAt(t, if q < p then q else q + n, d)
  {
    var q2 := if q < p then q else q + n;
    assert t[q2] == s[q] && t[q2 + 1 + |d|] == s[q + 1 + |d|];
    forall i | 0 <= i < |d| ensures t[q2 + 1 + i] == d[i] {
      assert s[q + 1 + i] == d[i] && t[if q < p then q + 1 + i else q + 1 + i + n] == s[q + 1 + i];
    }
  }

  /** A line that is added at the start of a line cuts no drawing. */
  lemma {:induction false} AddedLineCarries(s: string, t: string, p: nat, n: nat, k: nat, m: nat, drawings: seq<string>)
    requires p <= |s| && |t| == |s| + n && (p == 0 || s[p - 1] == '\n')
    requires (forall i | 0 <= i < p :: t[i] == s[i]) && forall i | p <= i < |s| :: t[i + n] == s[i]
    requires (forall i | 0 <= i < |drawings| :: OneLine(drawings[i])) && Carries(s, k, drawings)
    requires m == if k <= p then k else k + n
    ensures Carries(t, m, drawings)
    decreases |drawings|
  {
    if drawings != [] {
      var d := drawings[0];
      var q :| k <= q < |s| && QuotedAt(s, q, d) && Carries(s, q + 2 + |d|, drawings[1..]);
      var e := q + 2 + |d|;
      var q2 := if q < p then q else q + n;
      StringIsNotCut(s, p, q, d);
      QuotedAgain(s, t, p, n, q, d);
      AddedLineCarries(s, t, p, n, e, if e <= p then e else e + n, drawings[1..]);
      CarriesEarlier(t, q2 + 2 + |d|, if e <= p then e else e + n, drawings[1..]);
    }
  }

  /** What is drawn for each block. */
  function DrawingsOf(blocks: seq<D2Block>, parse: string -> Options,
                      draw: (string, Options) -> Option<string>): (r: seq<string>)
    requires AllDrawn(blocks, parse, draw)
    ensures |r| == |blocks|
    ensures forall i | 0 <= i < |r| :: r[i] == draw(blocks[i].code, parse(blocks[i].options)).value
  {
    seq(|blocks|, i requires 0 <= i < |blocks| => draw(blocks[i].code, parse(blocks[i].options)).value)
  }

  lemma {:induction false} PieceCarries(drawing: string, options: Options, code: bool)
    ensures Carry(TypstImage(drawing, options, code), drawing)
  {
    PieceExactly(drawing, options, code);
    QuotedAfter(Front(options, code), drawing, Back(options));
  }

  lemma {:induction false} PiecesCarry(blocks: seq<D2Block>, parse: string -> Options,
                                       draw: (string, Options) -> Option<string>)
    requires AllDrawn(blocks, parse, draw)
    ensures EachCarries(Pieces(blocks, parse, draw), DrawingsOf(blocks, parse, draw))
  {
    var (pieces, drawings) := (Pieces(blocks, parse, draw), DrawingsOf(blocks, parse, draw));
    assert |pieces| == |drawings|;
    forall i | 0 <= i < |pieces| ensures Carry(pieces[i], drawings[i]) {
      PieceCarries(drawings[i], parse(blocks[i].options), blocks[i].codeContext);
    }
  }

  lemma {:induction false} SplicedCarries(s: string, blocks: seq<D2Block>, pieces: seq<string>, drawings: seq<string>)
    requires |blocks| == |pieces| && Spans(s, 0, blocks) && EachCarries(pieces, drawings)
    ensures Carries(Splice(s, 0, blocks, pieces), 0, drawings)
  {
    var t := Splice(s, 0, blocks, pieces);
    ReadsSlice(t, 0, |t|);
    assert t[0..|t|] == t;
    SpliceCarries(s, 0, t, 0, blocks, pieces, drawings);
  }

  lemma {:induction false} WithLineCarries(content: string, p: nat, line: string, drawings: seq<string>)
    requires p <= |content| && (p == 0 || content[p - 1] == '\n') && Carries(content, 0, drawings)
    requires forall i | 0 <= i < |drawings| :: OneLine(drawings[i])
    ensures Carries(content[..p] + line + content[p..], 0, drawings)
  {
    AddedLineCarries(content, content[..p] + line + content[p..], p, |line|, 0, 0, drawings);
  }

  lemma {:induction false} AddedCarries(content: string, imports: string -> bool, drawings: seq<string>)
    requires Carries(content, 0, drawings) && forall i | 0 <= i < |drawings| :: OneLine(drawings[i])
    ensures var out := AddBasedImport(content, imports(content)); out.Some? ==> Carries(out.value, 0, drawings)
  {
    if InsertAt(content).Some? { WithLineCarries(content, InsertAt(content).value, LINE, drawings); }
  }

  /** What Preprocess returns carries the drawing of every call, in the order of the calls. */
  lemma {:induction false} ProcessedCarriesDrawings(s: string, parse: string -> Options,
                                                    draw: (string, Options) -> Option<string>,
                                                    imports: string -> bool)
    requires AllDrawn(Scan(s).blocks, parse, draw)
    requires forall code, options :: var svg := draw(code, options); svg.Some? ==> OneLine(svg.value)
    ensures Spans(s, 0, Scan(s).blocks)
    ensures var (blocks, pieces) := (Scan(s).blocks, Pieces(Scan(s).blocks, parse, draw));
            var out := Assembled(s, blocks, pieces, imports);
            out.Some? ==> Carries(out.value, 0, DrawingsOf(blocks, parse, draw))
  {
    ScanSpans(s);
    var (blocks, pieces) := (Scan(s).blocks, Pieces(Scan(s).blocks, parse, draw));
    var drawings := DrawingsOf(blocks, parse, draw);
    PiecesCarry(blocks, parse, draw);
    if blocks != [] {
      SplicedCarries(s, blocks, pieces, drawings);
      AddedCarries(Splice(s, 0, blocks, pieces), imports, drawings);
    }
  }
}
