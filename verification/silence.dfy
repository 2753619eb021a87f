/** A replacement is silent: scanned where its call stood, it reports nothing and leaves the
    scanner in the same regions. */
module Silence {
  import opened Text
  import opened Lexing
  import opened ScanMachine
  import opened Preprocessing

  /** Words and punctuation that mean nothing to the scanner in code. */
  predicate PlainChar(c: char) { IsIdentChar(c) || c == '.' || c == '%' || c == ',' || c == ':' || c == ' ' }

  predicate PlainText(p: string) { p == "" || (PlainChar(p[0]) && PlainText(p[1..])) }

  predicate Base64Char(c: char) { (IsIdentChar(c) && c != '_' && c != '-') || c == '+' || c == '/' || c == '=' }

  predicate Base64(b: string) { b == "" || (Base64Char(b[0]) && Base64(b[1..])) }

  ghost predicate InCode(stack: seq<Frame>) {
    stack != [] && stack[|stack| - 1] == Frame(Code, ')')
  }

  lemma {:induction false} IdentEndBound(t: string, k: nat, m: nat)
    requires k <= m < |t| && !IsIdentChar(t[m])
    ensures IdentEnd(t, k) <= m
    decreases m - k
  {
    if k < m && IsIdentChar(t[k]) {
      IdentEndBound(t, k + 1, m);
    }
  }

  /** In code, a run of name characters that is not the name d2 is passed over. */
  lemma {:induction false} NameIsSilent(t: string, k: nat, stack: seq<Frame>, cap: nat)
    requires k <= |t| && InCode(stack)
    requires FollowsName(t, k) || !NamesD2(t, k, IdentEnd(t, k))
    ensures Run(t, k, stack, cap) == Run(t, IdentEnd(t, k), stack, cap)
    decreases |t| - k
  {
    if k < IdentEnd(t, k) && !AtIdentStart(t, k) {
      assert Act(t, k, stack[|stack| - 1], |stack| <= cap) == Advance(k + 1);
      NameIsSilent(t, k + 1, stack, cap);
    }
  }

  /** A whole name is passed over, d2 included, when no call delimiter follows it. */
  lemma WordIsSilent(t: string, k: nat, stack: seq<Frame>, cap: nat)
    requires InCode(stack) && k < |t| && AtIdentStart(t, k)
    requires At(t, IdentEnd(t, k)) != '(' && At(t, IdentEnd(t, k)) != '['
    ensures Run(t, k, stack, cap) == Run(t, IdentEnd(t, k), stack, cap)
  {
    var j := IdentEnd(t, k);
    if NamesD2(t, k, j) {
      assert Act(t, k, stack[|stack| - 1], |stack| <= cap) == Call(k, j, true);
      assert RunCall(t, k, j, true, stack, cap) == Run(t, j, stack, cap);
    } else {
      assert Act(t, k, stack[|stack| - 1], |stack| <= cap) == Advance(j);
    }
  }

  lemma PlainCharIsSilent(t: string, k: nat, stack: seq<Frame>, cap: nat)
    requires InCode(stack) && k < |t| && PlainChar(t[k]) && !AtIdentStart(t, k)
    ensures Run(t, k, stack, cap) == Run(t, k + 1, stack, cap)
  {
    assert Act(t, k, stack[|stack| - 1], |stack| <= cap) == Advance(k + 1);
  }

  /** Plain text does not run on into what follows it, and no call delimiter follows. */
  predicate Contained(t: string, k: nat, p: string) {
    p == "" || (At(t, k + |p|) != '(' && At(t, k + |p|) != '[' &&
                k + |p| < |t| && (!IsIdentChar(t[k + |p|]) || !IsIdentChar(p[|p| - 1])))
  }

  lemma {:induction false} PlainFrom(p: string, n: nat)
    requires PlainText(p) && n <= |p|
    ensures PlainText(p[n..])
    ensures n < |p| ==> PlainChar(p[n])
    decreases n
  {
    if n > 0 {
      PlainFrom(p[1..], n - 1);
      assert p[1..][n - 1..] == p[n..];
    } else {
      assert p[0..] == p;
    }
  }

  lemma {:induction false} ReadsFrom(t: string, k: nat, p: string, n: nat)
    requires Reads(t, k, p) && n <= |p|
    ensures Reads(t, k + n, p[n..])
    ensures n < |p| ==> t[k + n] == p[n]
    decreases n
  {
    if n > 0 {
      ReadsFrom(t, k + 1, p[1..], n - 1);
      assert p[1..][n - 1..] == p[n..];
    } else {
      assert p[0..] == p;
    }
  }

  lemma ReadsEnds(t: string, k: nat, p: string)
    requires Reads(t, k, p) && p != ""
    ensures t[k] == p[0] && t[k + |p| - 1] == p[|p| - 1]
  {
    ReadsFrom(t, k, p, |p| - 1);
  }

  lemma PlainStep(t: string, k: nat, p: string, stack: seq<Frame>, cap: nat) returns (n: nat)
    requires InCode(stack) && Reads(t, k, p) && PlainText(p) && Contained(t, k, p) && p != ""
    ensures 0 < n <= |p| && Run(t, k, stack, cap) == Run(t, k + n, stack, cap)
  {
    ReadsEnds(t, k, p);
    if AtIdentStart(t, k) {
      IdentEndBound(t, k, if IsIdentChar(p[|p| - 1]) then k + |p| else k + |p| - 1);
      n := IdentEnd(t, k) - k;
      if n < |p| {
        ReadsFrom(t, k, p, n);
        PlainFrom(p, n);
      }
      WordIsSilent(t, k, stack, cap);
    } else {
      PlainCharIsSilent(t, k, stack, cap);
      n := 1;
    }
  }

  /** Plain text is passed over in code. */
  lemma {:induction false} PlainIsSilent(t: string, k: nat, p: string, stack: seq<Frame>, cap: nat)
    requires InCode(stack) && Reads(t, k, p) && PlainText(p) && Contained(t, k, p)
    ensures Run(t, k, stack, cap) == Run(t, k + |p|, stack, cap)
    decreases |p|
  {
    if p != "" {
      var n := PlainStep(t, k, p, stack, cap);
      ReadsFrom(t, k, p, n);
      PlainFrom(p, n);
      PlainIsSilent(t, k + n, p[n..], stack, cap);
    }
  }

  lemma {:induction false} PlainBoth(p: string, q: string)
    requires PlainText(p) && PlainText(q)
    ensures PlainText(p + q)
  {
    if p == "" {
      assert p + q == q;
    } else {
      assert (p + q)[1..] == p[1..] + q;
      PlainBoth(p[1..], q);
    }
  }

  lemma {:induction false} PlainEverywhere(p: string)
    requires forall x :: 0 <= x < |p| ==> PlainChar(p[x])
    ensures PlainText(p)
  {
    if p != "" {
      PlainEverywhere(p[1..]);
    }
  }

  /** Base64 text holds no quote and no escape. */
  lemma {:induction false} Base64String(t: string, k: nat, b: string)
    requires Base64(b) && Reads(t, k, b) && k + |b| < |t| && t[k + |b|] == '"'
    ensures StringEnd(t, k) == k + |b| + 1
    decreases |b|
  {
    if b != "" {
      Base64String(t, k + 1, b[1..]);
    }
  }

  lemma StringIsSilent(t: string, k: nat, b: string, stack: seq<Frame>, cap: nat)
    requires stack != [] && Base64(b) && Reads(t, k, "\"" + b + "\"")
    ensures Run(t, k, stack, cap) == Run(t, k + |b| + 2, stack, cap)
  {
    ReadsBoth(t, k, "\"" + b, "\"");
    ReadsBoth(t, k, "\"", b);
    Base64String(t, k + 1, b);
    assert Act(t, k, stack[|stack| - 1], |stack| <= cap) == Advance(k + |b| + 2);
  }

  const CODE := Frame(Code, ')')

  lemma OpenIsSilent(t: string, k: nat, stack: seq<Frame>, cap: nat)
    requires InCode(stack) && |stack| <= cap && k < |t| && t[k] == '('
    ensures Run(t, k, stack, cap) == Run(t, k + 1, stack + [CODE], cap)
    ensures InCode(stack + [CODE]) && (stack + [CODE])[..|stack|] == stack
  {
    assert Act(t, k, stack[|stack| - 1], |stack| <= cap) == Open(CODE, k + 1);
  }

  lemma CloseIsSilent(t: string, k: nat, stack: seq<Frame>, cap: nat)
    requires InCode(stack) && k < |t| && t[k] == ')'
    ensures Run(t, k, stack, cap) == Run(t, k + 1, stack[..|stack| - 1], cap)
  {
    assert Act(t, k, stack[|stack| - 1], |stack| <= cap) == Close(k + 1);
  }

  /** An option value that an image call can carry. */
  predicate OptionText(v: string) {
    v == "" || ((IsIdentChar(v[0]) || v[0] == '.' || v[0] == '%') && OptionText(v[1..]))
  }

  lemma {:induction false} OptionTextIsPlain(v: string)
    requires OptionText(v)
    ensures PlainText(v)
  {
    if v != "" {
      OptionTextIsPlain(v[1..]);
    }
  }

  predicate PlainOption(v: Option<string>) {
    v.None? || OptionText(v.value)
  }

  /** Plain text, then the parenthesis that closes the region. */
  lemma PlainThenClose(t: string, k: nat, p: string, stack: seq<Frame>, cap: nat)
    requires InCode(stack) && PlainText(p) && Reads(t, k, p + ")")
    ensures Run(t, k, stack, cap) == Run(t, k + |p| + 1, stack[..|stack| - 1], cap)
  {
    ReadsBoth(t, k, p, ")");
    ReadsOne(t, k + |p|, ')');
    PlainIsSilent(t, k, p, stack, cap);
    CloseIsSilent(t, k + |p|, stack, cap);
  }

  lemma WidthIsPlain(w: string)
    requires OptionText(w)
    ensures PlainText(", width: " + w)
  {
    OptionTextIsPlain(w);
    PlainEverywhere(", width: ");
    PlainBoth(", width: ", w);
  }

  lemma WidthIsSilent(t: string, k: nat, width: Option<string>, stack: seq<Frame>, cap: nat)
    requires InCode(stack) && PlainOption(width) && Reads(t, k, WidthTail(width))
    ensures Run(t, k, stack, cap) == Run(t, k + |WidthTail(width)|, stack[..|stack| - 1], cap)
  {
    match width
    case None =>
      ReadsOne(t, k, ')');
      CloseIsSilent(t, k, stack, cap);
    case Some(w) =>
      WidthIsPlain(w);
      PlainThenClose(t, k, ", width: " + w, stack, cap);
  }

  lemma {:induction false} NameEnds(t: string, k: nat, name: string)
    requires Reads(t, k, name) && (forall x :: 0 <= x < |name| ==> IsIdentChar(name[x]))
    requires !IsIdentChar(At(t, k + |name|))
    ensures IdentEnd(t, k) == k + |name|
    decreases |name|
  {
    if name != "" {
      NameEnds(t, k + 1, name[1..]);
    }
  }

  /** A fixed name and the parenthesis after it. */
  lemma NameOpensCode(t: string, k: nat, name: string, rest: string, stack: seq<Frame>, cap: nat)
    requires InCode(stack) && |stack| <= cap && Reads(t, k, name + ("(" + rest))
    requires |name| > 2 && (forall x :: 0 <= x < |name| ==> IsIdentChar(name[x]))
    ensures Run(t, k, stack, cap) == Run(t, k + |name| + 1, stack + [CODE], cap)
    ensures Reads(t, k + |name| + 1, rest)
  {
    ReadsBoth(t, k, name, "(" + rest);
    ReadsBoth(t, k + |name|, "(", rest);
    ReadsOne(t, k + |name|, '(');
    NameEnds(t, k, name);
    NameIsSilent(t, k, stack, cap);
    OpenIsSilent(t, k + |name|, stack, cap);
  }

  /** A string that holds no quote, and what comes after it. */
  lemma StringThen(t: string, k: nat, b: string, rest: string, stack: seq<Frame>, cap: nat)
    requires stack != [] && Base64(b) && Reads(t, k, ("\"" + b + "\"") + rest)
    ensures Run(t, k, stack, cap) == Run(t, k + |b| + 2, stack, cap)
    ensures Reads(t, k + |b| + 2, rest)
  {
    ReadsBoth(t, k, "\"" + b + "\"", rest);
    StringIsSilent(t, k, b, stack, cap);
  }

  lemma CloseThen(t: string, k: nat, rest: string, stack: seq<Frame>, cap: nat)
    requires InCode(stack) && Reads(t, k, ")" + rest)
    ensures Run(t, k, stack, cap) == Run(t, k + 1, stack[..|stack| - 1], cap)
    ensures Reads(t, k + 1, rest)
  {
    ReadsBoth(t, k, ")", rest);
    ReadsOne(t, k, ')');
    CloseIsSilent(t, k, stack, cap);
  }

  /** The decode64("...") argument. */
  lemma DataIsSilent(t: string, k: nat, b64: string, rest: string, stack: seq<Frame>, cap: nat)
    requires InCode(stack) && |stack| <= cap && Base64(b64)
    requires Reads(t, k, "decode64" + ("(" + (("\"" + b64 + "\"") + (")" + rest))))
    ensures Run(t, k, stack, cap) == Run(t, k + 12 + |b64|, stack, cap)
    ensures Reads(t, k + 12 + |b64|, rest)
  {
    var inner := stack + [CODE];
    NameOpensCode(t, k, "decode64", ("\"" + b64 + "\"") + (")" + rest), stack, cap);
    StringThen(t, k + 9, b64, ")" + rest, inner, cap);
    CloseThen(t, k + 11 + |b64|, rest, inner, cap);
    assert inner[..|inner| - 1] == stack;
  }

  /** Plain text, and what comes after it. */
  lemma PlainThen(t: string, k: nat, p: string, rest: string, stack: seq<Frame>, cap: nat)
    requires InCode(stack) && PlainText(p) && Reads(t, k, p + rest)
    requires rest != "" && !IsIdentChar(rest[0]) && rest[0] != '(' && rest[0] != '['
    ensures Run(t, k, stack, cap) == Run(t, k + |p|, stack, cap)
    ensures Reads(t, k + |p|, rest)
  {
    ReadsBoth(t, k, p, rest);
    PlainIsSilent(t, k, p, stack, cap);
  }

  /** The words before a fixed quoted argument, and the argument. */
  lemma QuotedArgument(t: string, k: nat, p: string, v: string, rest: string, stack: seq<Frame>, cap: nat)
    requires InCode(stack) && PlainText(p) && Base64(v) && Reads(t, k, p + (("\"" + v + "\"") + rest))
    ensures Run(t, k, stack, cap) == Run(t, k + |p| + |v| + 2, stack, cap)
    ensures Reads(t, k + |p| + |v| + 2, rest)
  {
    PlainThen(t, k, p, ("\"" + v + "\"") + rest, stack, cap);
    StringThen(t, k + |p|, v, rest, stack, cap);
  }

  lemma ImageCallIsSilent(t: string, k: nat, b64: string, words: string, kind: string, width: Option<string>,
                          stack: seq<Frame>, cap: nat)
    requires InCode(stack) && |stack| <= cap && Base64(b64) && PlainOption(width)
    requires PlainText(words) && Base64(kind) && Reads(t, k, ImageCall(b64, words, kind, width))
    ensures Run(t, k, stack, cap) == Run(t, k + |ImageCall(b64, words, kind, width)|, stack[..|stack| - 1], cap)
  {
    var format := words + (("\"" + kind + "\"") + WidthTail(width));
    DataIsSilent(t, k, b64, format, stack, cap);
    var k1 := k + 12 + |b64|;
    QuotedArgument(t, k1, words, kind, WidthTail(width), stack, cap);
    WidthIsSilent(t, k1 + |words| + |kind| + 2, width, stack, cap);
  }

  /** The pad(...) wrapper up to its image. */
  lemma PadIsSilent(t: string, k: nat, p: string, rest: string, stack: seq<Frame>, cap: nat)
    requires InCode(stack) && |stack| <= cap && OptionText(p)
    requires Reads(t, k, (p + ", ") + ("image" + ("(" + rest)))
    ensures Run(t, k, stack, cap) == Run(t, k + |p| + 8, stack + [CODE], cap)
    ensures Reads(t, k + |p| + 8, rest)
  {
    var k1 := k + |p| + 2;
    ReadsBoth(t, k, p + ", ", "image" + ("(" + rest));
    ReadsFrom(t, k1, "image" + ("(" + rest), 0);
    OptionTextIsPlain(p);
    PlainBoth(p, ", ");
    PlainIsSilent(t, k, p + ", ", stack, cap);
    NameOpensCode(t, k1, "image", rest, stack, cap);
  }

  lemma WrappedIsSilent(t: string, k: nat, b64: string, words: string, kind: string, width: Option<string>,
                        stack: seq<Frame>, cap: nat)
    requires InCode(stack) && |stack| < cap && Base64(b64) && PlainText(words) && Base64(kind) && PlainOption(width)
    requires Reads(t, k, ImageCall(b64, words, kind, width) + ")")
    ensures Run(t, k, stack + [CODE], cap) ==
            Run(t, k + |ImageCall(b64, words, kind, width)| + 1, stack[..|stack| - 1], cap)
  {
    var image := ImageCall(b64, words, kind, width);
    var inner := stack + [CODE];
    ReadsBoth(t, k, image, ")");
    ReadsOne(t, k + |image|, ')');
    ImageCallIsSilent(t, k, b64, words, kind, width, inner, cap);
    assert inner[..|inner| - 1] == stack;
    CloseIsSilent(t, k + |image|, stack, cap);
  }

  lemma PaddedIsSilent(t: string, k: nat, p: string, b64: string, words: string, kind: string, width: Option<string>,
                       stack: seq<Frame>, cap: nat)
    requires InCode(stack) && |stack| < cap && Base64(b64) && PlainText(words) && Base64(kind)
    requires PlainOption(width) && OptionText(p)
    requires Reads(t, k, (p + ", ") + ("image" + ("(" + (ImageCall(b64, words, kind, width) + ")"))))
    ensures var n := |ImageCall(b64, words, kind, width)|;
            Run(t, k, stack, cap) == Run(t, k + |p| + n + 9, stack[..|stack| - 1], cap)
  {
    var image := ImageCall(b64, words, kind, width);
    PadIsSilent(t, k, p, image + ")", stack, cap);
    WrappedIsSilent(t, k + |p| + 8, b64, words, kind, width, stack, cap);
  }

  lemma PaddedLength(p: string, image: string)
    ensures |(p + ", ") + ("image" + ("(" + (image + ")")))| == |p| + |image| + 9
  {}

  lemma PaddedTail(t: string, k: nat, p: string, image: string, b64: string, words: string, kind: string,
                   width: Option<string>, stack: seq<Frame>, cap: nat)
    requires InCode(stack) && |stack| < cap && Base64(b64) && PlainText(words) && Base64(kind)
    requires PlainOption(width) && OptionText(p) && image == ImageCall(b64, words, kind, width)
    requires Reads(t, k, (p + ", ") + ("image" + ("(" + (image + ")"))))
    ensures Run(t, k, stack, cap) ==
            Run(t, k + |(p + ", ") + ("image" + ("(" + (image + ")")))|, stack[..|stack| - 1], cap)
  {
    PaddedIsSilent(t, k, p, b64, words, kind, width, stack, cap);
    PaddedLength(p, image);
  }

  lemma {:induction false} TailIsSilent(t: string, k: nat, tail: string, b64: string, words: string, kind: string,
                                        width: Option<string>, pad: Option<string>, stack: seq<Frame>, cap: nat)
    requires InCode(stack) && Base64(b64) && PlainText(words) && Base64(kind)
    requires PlainOption(width) && PlainOption(pad)
    requires |stack| + (if pad.Some? then 1 else 0) <= cap
    requires tail == Tail(b64, words, kind, width, pad) && Reads(t, k, tail)
    ensures Run(t, k, stack, cap) == Run(t, k + |tail|, stack[..|stack| - 1], cap)
  {
    match pad
    case None => ImageCallIsSilent(t, k, b64, words, kind, width, stack, cap);
    case Some(p) => PaddedTail(t, k, p, ImageCall(b64, words, kind, width), b64, words, kind, width, stack, cap);
  }

  /** How many regions a replacement opens at once. */
  function Levels(pad: Option<string>): nat {
    if pad.Some? then 3 else 2
  }

  ghost predicate FitsAs(piece: string, ctx: bool, depth: nat, cap: nat, b64: string, words: string, kind: string,
                         width: Option<string>, pad: Option<string>) {
    && piece == Shape(ctx, b64, words, kind, width, pad)
    && Base64(b64) && PlainText(words) && Base64(kind) && PlainOption(width) && PlainOption(pad)
    && depth + Levels(pad) <= cap
  }

  /** The piece is a replacement that the scanner cannot misread at this nesting depth. */
  ghost predicate Fits(piece: string, ctx: bool, depth: nat, cap: nat) {
    exists b64, words, kind, width, pad :: FitsAs(piece, ctx, depth, cap, b64, words, kind, width, pad)
  }

  /** The options of a call leave its replacement readable: plain width and pad values. */
  predicate PlainOptions(options: Options) {
    && ("width" in options ==> OptionText(options["width"]))
    && ("pad" in options ==> OptionText(options["pad"]))
  }

  lemma FormatIsPlain()
    ensures PlainText(", format: ") && Base64("svg")
  {
    PlainEverywhere(", format: ");
  }

  lemma WidthIsOption(options: Options)
    requires PlainOptions(options)
    ensures PlainOption(WidthOf(options))
  {
    assert OptionText("100%");
  }

  lemma ShapeFits(ctx: bool, b64: string, words: string, kind: string, width: Option<string>, pad: Option<string>,
                  depth: nat, cap: nat)
    requires Base64(b64) && PlainText(words) && Base64(kind) && PlainOption(width) && PlainOption(pad)
    requires depth + Levels(pad) <= cap
    ensures Fits(Shape(ctx, b64, words, kind, width, pad), ctx, depth, cap)
  {
    assert FitsAs(Shape(ctx, b64, words, kind, width, pad), ctx, depth, cap, b64, words, kind, width, pad);
  }

  /** What Preprocess puts in place of a call fits there. */
  lemma TypstImageFits(b64: string, options: Options, ctx: bool, depth: nat, cap: nat)
    requires Base64(b64) && PlainOptions(options) && depth + Levels(PadOf(options)) <= cap
    ensures Fits(TypstImage(b64, options, ctx), ctx, depth, cap)
  {
    FormatIsPlain();
    WidthIsOption(options);
    ShapeFits(ctx, b64, ", format: ", "svg", WidthOf(options), PadOf(options), depth, cap);
  }
}
