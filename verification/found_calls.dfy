/** Every diagram call of a legal document is found: the scan reports the calls of the grammar, each with
    its span and its code, and nothing else. */
module FoundCalls {
  import opened Text
  import opened Lexing
  import opened ScanMachine
  import opened TypstGrammar
  import D2Grammar
  import RawBlocks
  import Silence

  // Reading texts.

  lemma {:induction false} ReadsAt(t: string, k: nat, p: string, i: nat)
    requires Reads(t, k, p) && i < |p|
    ensures k + |p| <= |t| && t[k + i] == p[i]
    decreases i
  {
    if i > 0 { ReadsAt(t, k + 1, p[1..], i - 1); }
  }

  lemma {:induction false} ReadsPoints(t: string, k: nat, p: string)
    requires Reads(t, k, p)
    ensures k + |p| <= |t| && forall i | 0 <= i < |p| :: t[k + i] == p[i]
  {
    forall i | 0 <= i < |p| ensures t[k + i] == p[i] { ReadsAt(t, k, p, i); }
  }

  lemma {:induction false} ReadsAround(t: string, k: nat, open: string, body: string, close: string)
    requires Reads(t, k, open + (body + close))
    ensures Reads(t, k, open) && Reads(t, k + |open|, body) && Reads(t, k + |open| + |body|, close)
  {
    ReadsBoth(t, k, open, body + close);
    ReadsBoth(t, k + |open|, body, close);
  }

  lemma {:induction false} ReadsTwo(t: string, k: nat, a: char, b: char)
    ensures Reads(t, k, [a, b]) <==> k + 1 < |t| && t[k] == a && t[k + 1] == b
  {
    assert [a, b] == [a] + [b];
    ReadsBoth(t, k, [a], [b]);
    ReadsOne(t, k, a);
    ReadsOne(t, k + 1, b);
  }

  lemma {:induction false} ReadsThree(t: string, k: nat, a: char, b: char, c: char)
    ensures Reads(t, k, [a, b, c]) <==> k + 2 < |t| && t[k] == a && t[k + 1] == b && t[k + 2] == c
  {
    assert [a, b, c] == [a] + [b, c];
    ReadsBoth(t, k, [a], [b, c]);
    ReadsOne(t, k, a);
    ReadsTwo(t, k + 1, b, c);
  }

  // Comments, strings and raw text.

  lemma {:induction false} ClosesAfter(t: string, k: nat, e: nat)
    requires k <= e && e + 2 <= |t| && CommentCloseAt(t, e) && forall i | k <= i < e :: !CommentCloseAt(t, i)
    ensures PastComment(t, k) == e + 2
    decreases e - k
  {
    if k < e { ClosesAfter(t, k + 1, e); }
  }

  lemma {:induction false} FenceAfter(t: string, k: nat, e: nat)
    requires k <= e && e + 3 <= |t| && FenceAt(t, e) && forall i | k <= i < e :: !FenceAt(t, i)
    ensures PastFence(t, k) == e + 3
    decreases e - k
  {
    if k < e { FenceAfter(t, k + 1, e); }
  }

  lemma {:induction false} CommentIsOpaque(t: string, k: nat, body: string)
    requires Reads(t, k, "//" + (body + "\n")) && '\n' !in body
    ensures OpaqueEnd(t, k) == Some(k + 2 + |body|) && At(t, k + 2 + |body|) == '\n'
  {
    ReadsAround(t, k, "//", body, "\n");
    ReadsTwo(t, k, '/', '/');
    ReadsOne(t, k + 2 + |body|, '\n');
    ReadsPoints(t, k + 2, body);
    forall i | k + 2 <= i < k + 2 + |body| ensures t[i] != '\n' { assert t[k + 2 + (i - k - 2)] == body[i - k - 2]; }
    CharIsAt(t, '\n', k + 2, k + 2 + |body|);
  }

  lemma {:induction false} NoCloseWithin(t: string, k: nat, body: string)
    requires Reads(t, k, body) && NoClose(body) && At(t, k + |body|) != '/'
    ensures forall i | k <= i < k + |body| :: !CommentCloseAt(t, i)
  {
    ReadsPoints(t, k, body);
    forall i | k <= i < k + |body| ensures !CommentCloseAt(t, i) {
      var n := i - k;
      assert t[k + n] == body[n];
      if n + 1 < |body| { assert t[k + (n + 1)] == body[n + 1]; }
    }
  }

  lemma {:induction false} BlockIsOpaque(t: string, k: nat, body: string)
    requires Reads(t, k, "/*" + (body + "*/")) && NoClose(body)
    ensures OpaqueEnd(t, k) == Some(k + 4 + |body|)
  {
    ReadsAround(t, k, "/*", body, "*/");
    ReadsTwo(t, k, '/', '*');
    ReadsTwo(t, k + 2 + |body|, '*', '/');
    NoCloseWithin(t, k + 2, body);
    ClosesAfter(t, k + 2, k + 2 + |body|);
  }

  lemma {:induction false} StringIsOpaque(t: string, k: nat, body: string)
    requires Reads(t, k, "\"" + (body + "\"")) && D2Grammar.StringBody(body)
    ensures OpaqueEnd(t, k) == Some(k + 2 + |body|)
  {
    ReadsAround(t, k, "\"", body, "\"");
    ReadsOne(t, k, '"');
    ReadsOne(t, k + 1 + |body|, '"');
    D2Grammar.StringIsPassed(t, k + 1, body);
  }

  lemma {:induction false} NoFenceWithin(t: string, k: nat, body: string)
    requires Reads(t, k, body) && RawBlocks.FenceFree(body) && At(body, |body| - 1) != '`'
    ensures forall i | k <= i < k + |body| :: !FenceAt(t, i)
  {
    ReadsPoints(t, k, body);
    forall i | k <= i < k + |body| ensures !FenceAt(t, i) {
      var n := i - k;
      assert !FenceAt(body, n) && t[k + n] == body[n];
      if n + 1 < |body| { assert t[k + (n + 1)] == body[n + 1]; }
      if n + 2 < |body| { assert t[k + (n + 2)] == body[n + 2]; }
    }
  }

  lemma {:induction false} FenceIsOpaque(t: string, k: nat, body: string)
    requires Reads(t, k, "```" + (body + "```")) && RawBlocks.FenceFree(body) && At(body, |body| - 1) != '`'
    ensures OpaqueEnd(t, k) == Some(k + 6 + |body|)
  {
    ReadsAround(t, k, "```", body, "```");
    ReadsThree(t, k, '`', '`', '`');
    ReadsThree(t, k + 3 + |body|, '`', '`', '`');
    NoFenceWithin(t, k + 3, body);
    FenceAfter(t, k + 3, k + 3 + |body|);
  }

  lemma {:induction false} TickIsOpaque(t: string, k: nat, body: string)
    requires Reads(t, k, "`" + (body + "`")) && '`' !in body && (body == "" ==> At(t, k + 2) != '`')
    ensures OpaqueEnd(t, k) == Some(k + 2 + |body|)
  {
    var e := k + 1 + |body|;
    ReadsAround(t, k, "`", body, "`");
    ReadsOne(t, k, '`');
    ReadsOne(t, e, '`');
    ReadsPoints(t, k + 1, body);
    forall i | k + 1 <= i < e ensures t[i] != '`' { assert t[k + 1 + (i - k - 1)] == body[i - k - 1]; }
    CharIsAt(t, '`', k + 1, e);
  }

  predicate IsOpaque(item: Item) {
    item.Comment? || item.Block? || item.Str? || item.Fence? || item.Tick?
  }

  /** Such an item is passed in one move, but for the newline after a line comment. */
  lemma {:induction false} OpaqueIsPassed(t: string, k: nat, item: Item, at: Place, prev: char)
    requires IsOpaque(item) && Reads(t, k, ItemText(item))
    requires LegalItem(item, at, prev, At(t, k + |ItemText(item)|))
    ensures var e := k + |ItemText(item)|;
            if item.Comment? then OpaqueEnd(t, k) == Some(e - 1) && At(t, e - 1) == '\n' else OpaqueEnd(t, k) == Some(e)
  {
    match item
    case Comment(body) => CommentIsOpaque(t, k, body);
    case Block(body) => BlockIsOpaque(t, k, body);
    case Str(body) => StringIsOpaque(t, k, body);
    case Fence(body) => FenceIsOpaque(t, k, body);
    case Tick(body) => TickIsOpaque(t, k, body);
  }

  // Neighbours.

  lemma {:induction false} CallEnds(call: D2Call)
    ensures var s := CallText(call);
            && s != "" && s[0] == (if call.Bracketed? then '[' else '(')
            && s[|s| - 1] == (if call.Bracketed? || call.WithOptions? then ']' else ')')
  {}

  lemma {:induction false} ItemEnds(item: Item, at: Place, prev: char, next: char)
    requires LegalItem(item, at, prev, next)
    ensures var s := ItemText(item); s != "" && s[0] == FirstOf(item) && s[|s| - 1] == LastOf(item)
  {
    if item.Diagram? { CallEnds(item.call); }
  }

  /** What comes before and after an item is what the text holds there. */
  lemma {:induction false} NextIs(t: string, k: nat, items: Items, at: Place, prev: char, next: char)
    requires Legal(items, at, prev, next) && Reads(t, k, ItemsText(items)) && At(t, k + |ItemsText(items)|) == next
    ensures At(t, k) == First(items, next)
  {
    if items.Then? {
      ReadsBoth(t, k, ItemText(items.item), ItemsText(items.rest));
      ItemEnds(items.item, at, prev, First(items.rest, next));
      ReadsAt(t, k, ItemText(items.item), 0);
    }
  }

  // The options of a call.

  /** A byte that is plain begins no comment, string or raw text. */
  lemma {:induction false} PlainIsNotOpaque(t: string, k: nat, c: char, at: Place)
    requires k < |t| && t[k] == c && Plain(c, at, At(t, k + 1))
    ensures OpaqueEnd(t, k) == None
  {}

  lemma {:induction false} GroupIsPassed(t: string, k: nat, e: nat, depth: nat)
    requires k < e < |t| && t[k] == '(' && t[e] == ')' && depth > 0
    requires ParenEnd(t, k + 1, depth + 1) == ParenEnd(t, e, depth + 1)
    ensures ParenEnd(t, k, depth) == ParenEnd(t, e + 1, depth)
  {}

  lemma {:induction false} PlainIsPassed(t: string, k: nat, c: char, depth: nat)
    requires k < |t| && t[k] == c && Plain(c, Options, At(t, k + 1)) && depth > 0
    ensures ParenEnd(t, k, depth) == ParenEnd(t, k + 1, depth)
  {
    PlainIsNotOpaque(t, k, c, Options);
  }

  lemma {:induction false} OpaqueOptionIsPassed(t: string, k: nat, item: Item, prev: char, depth: nat)
    requires IsOpaque(item) && Reads(t, k, ItemText(item)) && depth > 0
    requires LegalItem(item, Options, prev, At(t, k + |ItemText(item)|))
    ensures ParenEnd(t, k, depth) == ParenEnd(t, k + |ItemText(item)|, depth)
  {
    var e := k + |ItemText(item)|;
    OpaqueIsPassed(t, k, item, Options, prev);
    if item.Comment? { assert ParenEnd(t, e - 1, depth) == ParenEnd(t, e, depth); }
  }

  lemma {:induction false} OptionIsPassed(t: string, k: nat, item: Item, prev: char, depth: nat)
    requires Reads(t, k, ItemText(item)) && depth > 0
    requires LegalItem(item, Options, prev, At(t, k + |ItemText(item)|))
    ensures ParenEnd(t, k, depth) == ParenEnd(t, k + |ItemText(item)|, depth)
    decreases item, 0
  {
    if IsOpaque(item) {
      OpaqueOptionIsPassed(t, k, item, prev, depth);
    } else if item.Byte? {
      ReadsOne(t, k, item.c);
      PlainIsPassed(t, k, item.c, depth);
    } else {
      ParenIsPassed(t, k, item.items, ItemsText(item.items), depth);
    }
  }

  lemma {:induction false} ParenIsPassed(t: string, k: nat, items: Items, inner: string, depth: nat)
    requires Reads(t, k, "(" + (inner + ")")) && inner == ItemsText(items) && depth > 0
    requires Legal(items, Options, '(', ')')
    ensures ParenEnd(t, k, depth) == ParenEnd(t, k + 2 + |inner|, depth)
    decreases items, 1
  {
    ReadsAround(t, k, "(", inner, ")");
    ReadsOne(t, k, '(');
    ReadsOne(t, k + 1 + |inner|, ')');
    OptionsArePassed(t, k + 1, items, '(', depth + 1);
    GroupIsPassed(t, k, k + 1 + |inner|, depth);
  }

  lemma {:induction false} OptionsArePassed(t: string, k: nat, items: Items, prev: char, depth: nat)
    requires Reads(t, k, ItemsText(items)) && depth > 0
    requires Legal(items, Options, prev, At(t, k + |ItemsText(items)|))
    ensures ParenEnd(t, k, depth) == ParenEnd(t, k + |ItemsText(items)|, depth)
    decreases items, 0
  {
    match items
    case End =>
    case Then(item, rest) =>
      var next := At(t, k + |ItemsText(items)|);
      ReadsBoth(t, k, ItemText(item), ItemsText(rest));
      NextIs(t, k + |ItemText(item)|, rest, Options, LastOf(item), next);
      OptionIsPassed(t, k, item, prev, depth);
      OptionsArePassed(t, k + |ItemText(item)|, rest, LastOf(item), depth);
  }

  // Calls.

  lemma {:induction false} SliceIs(t: string, k: nat, p: string)
    requires Reads(t, k, p)
    ensures k + |p| <= |t| && t[k..k + |p|] == p
  {
    ReadsPoints(t, k, p);
  }

  lemma {:induction false} DiagramIsTried(t: string, start: nat, k: nat, diagram: D2Grammar.Items, options: string,
                                          ctx: bool)
    requires start < k && D2Grammar.Legal(diagram, true)
    requires Reads(t, k, "[" + (D2Grammar.ItemsText(diagram) + "]"))
    ensures var code := D2Grammar.ItemsText(diagram);
            k < |t| && t[k] == '['
            && TryDiagram(t, start, k, options, ctx) == Emitted(D2Block(start, k + 2 + |code|, options, code, ctx))
  {
    var code := D2Grammar.ItemsText(diagram);
    ReadsAround(t, k, "[", code, "]");
    ReadsOne(t, k, '[');
    SliceIs(t, k + 1, code);
    assert "[" + (code + "]") == "[" + code + "]";
    D2Grammar.DiagramIsSkipped(t, k, diagram);
  }

  lemma {:induction false} ParenIsTried(t: string, start: nat, k: nat, e: nat, ctx: bool)
    requires start < k < e < |t| && t[k] == '(' && t[e] == ')' && ParenEnd(t, k + 1, 1) == ParenEnd(t, e, 1)
    ensures TryD2(t, start, k, ctx) == TryArgs(t, start, k + 1, e + 1, ctx)
  {
    assert ParenEnd(t, e, 1) == Some(e + 1);
  }

  lemma {:induction false} ArgumentReads(t: string, k: nat, args: string)
    requires Reads(t, k, "(" + (args + ")"))
    ensures var e := k + 1 + |args|; e < |t| && t[k] == '(' && t[e] == ')' && t[k + 1..e] == args
  {
    ReadsAround(t, k, "(", args, ")");
    ReadsOne(t, k, '(');
    ReadsOne(t, k + 1 + |args|, ')');
    SliceIs(t, k + 1, args);
  }

  /** The argument of a call, and what is made of it. */
  lemma {:induction false} ArgumentIsTried(t: string, start: nat, k: nat, args: string, ctx: bool)
    requires start < k && Reads(t, k, "(" + (args + ")")) && ParenEnd(t, k + 1, 1) == ParenEnd(t, k + 1 + |args|, 1)
    ensures k + 2 + |args| <= |t| && TryD2(t, start, k, ctx) == TryArgs(t, start, k + 1, k + 2 + |args|, ctx)
    ensures t[k + 1..k + 1 + |args|] == args
  {
    ArgumentReads(t, k, args);
    ParenIsTried(t, start, k, k + 1 + |args|, ctx);
  }

  lemma {:induction false} TriedAsOptions(t: string, start: nat, open: nat, e: nat, args: string, ctx: bool)
    requires start < open < e <= |t| && t[open..e - 1] == args && SingleRawBlock(args) == None
    ensures TryArgs(t, start, open, e, ctx) ==
            if At(t, e) == '[' then TryDiagram(t, start, e, args, ctx) else Failed(SkipSite(start, NoDiagramBlock), e)
  {}

  lemma {:induction false} TriedAsRaw(t: string, start: nat, open: nat, e: nat, args: string, code: string, ctx: bool)
    requires start < open < e <= |t| && t[open..e - 1] == args && RawBlocks.RawCode(args) == Some(code)
    ensures TryArgs(t, start, open, e, ctx) == Emitted(D2Block(start, e, "", code, ctx))
  {}

  lemma {:induction false} OptionsClose(t: string, k: nat, items: Items, args: string)
    requires args == ItemsText(items) && Legal(items, Options, '(', ')') && Reads(t, k, "(" + (args + ")"))
    ensures ParenEnd(t, k + 1, 1) == ParenEnd(t, k + 1 + |args|, 1)
  {
    ReadsAround(t, k, "(", args, ")");
    ReadsOne(t, k + 1 + |args|, ')');
    OptionsArePassed(t, k + 1, items, '(', 1);
  }

  lemma {:induction false} OptionsAreTried(t: string, start: nat, k: nat, options: Items, args: string, ctx: bool)
    requires start < k && args == ItemsText(options) && Reads(t, k, "(" + (args + ")"))
    requires Legal(options, Options, '(', ')') && !RawBlocks.Raw(args)
    ensures var e := k + 2 + |args|;
            e <= |t| && TryD2(t, start, k, ctx) ==
            if At(t, e) == '[' then TryDiagram(t, start, e, args, ctx) else Failed(SkipSite(start, NoDiagramBlock), e)
  {
    OptionsClose(t, k, options, args);
    ArgumentIsTried(t, start, k, args, ctx);
    RawBlocks.RawExactly(args);
    TriedAsOptions(t, start, k + 1, k + 2 + |args|, args, ctx);
  }

  /** White space, and then items. */
  function Blanks(s: string, rest: Items): Items {
    if s == "" then rest else Then(Byte(s[0]), Blanks(s[1..], rest))
  }

  lemma {:induction false} FirstAndRest(s: string, u: string)
    requires s != ""
    ensures [s[0]] + (s[1..] + u) == s + u
  {}

  lemma {:induction false} BlanksRead(s: string, rest: Items)
    ensures ItemsText(Blanks(s, rest)) == s + ItemsText(rest)
    decreases |s|
  {
    if s != "" {
      BlanksRead(s[1..], rest);
      FirstAndRest(s, ItemsText(rest));
    }
  }

  /** In options it does not matter what comes before. */
  lemma {:induction false} AnyPrev(items: Items, prev: char, other: char, next: char)
    requires Legal(items, Options, prev, next)
    ensures Legal(items, Options, other, next)
  {
    if items.Then? { assert LegalItem(items.item, Options, other, First(items.rest, next)); }
  }

  lemma {:induction false} BlanksAreLegal(s: string, rest: Items, prev: char, next: char)
    requires RawBlocks.Spaces(s) && Legal(rest, Options, prev, next)
    ensures Legal(Blanks(s, rest), Options, prev, next)
    decreases |s|
  {
    if s != "" {
      assert IsSpace(s[0]) && forall i | 0 <= i < |s[1..]| :: s[1..][i] == s[i + 1];
      AnyPrev(rest, prev, s[0], next);
      BlanksAreLegal(s[1..], rest, s[0], next);
      assert LegalItem(Byte(s[0]), Options, prev, First(Blanks(s[1..], rest), next));
    }
  }

  lemma {:induction false} RawIsJoined(pre: string, text: string, post: string)
    ensures pre + (("```" + (text + "```")) + (post + "")) == pre + "```" + text + "```" + post
  {}

  /** A raw block and the space around it, as items. */
  lemma {:induction false} RawItems(pre: string, text: string, post: string) returns (items: Items)
    requires RawBlocks.Spaces(pre) && RawBlocks.Spaces(post)
    requires RawBlocks.FenceFree(text) && At(text, |text| - 1) != '`'
    ensures Legal(items, Options, '(', ')') && ItemsText(items) == pre + "```" + text + "```" + post
  {
    var tail := Blanks(post, End);
    var rest := Then(Fence(text), tail);
    BlanksAreLegal(post, End, '`', ')');
    assert LegalItem(Fence(text), Options, '(', First(tail, ')'));
    BlanksAreLegal(pre, rest, '(', ')');
    items := Blanks(pre, rest);
    BlanksRead(post, End);
    BlanksRead(pre, rest);
    RawIsJoined(pre, text, post);
  }

  lemma {:induction false} RawCloses(t: string, k: nat, args: string, from: nat, to: nat)
    requires RawBlocks.RawIn(args, from, to) && (from + 6 < to ==> args[to - 4] != '`')
    requires Reads(t, k, "(" + (args + ")"))
    ensures ParenEnd(t, k + 1, 1) == ParenEnd(t, k + 1 + |args|, 1)
  {
    RawBlocks.RawInIsRaw(args, from, to);
    var items := RawItems(args[..from], args[from + 3..to - 3], args[to..]);
    OptionsClose(t, k, items, args);
  }

  lemma {:induction false} RawIsTried(t: string, start: nat, k: nat, args: string, code: string, ctx: bool)
    requires start < k && Reads(t, k, "(" + (args + ")")) && RawBlocks.RawCode(args) == Some(code)
    requires ParenEnd(t, k + 1, 1) == ParenEnd(t, k + 1 + |args|, 1)
    ensures TryD2(t, start, k, ctx) == Emitted(D2Block(start, k + 2 + |args|, "", code, ctx))
  {
    ArgumentIsTried(t, start, k, args, ctx);
    TriedAsRaw(t, start, k + 1, k + 2 + |args|, args, code, ctx);
  }

  function Verdict(call: D2Call, start: nat, e: nat, ctx: bool): Attempt {
    if call.Dangling? then Failed(SkipSite(start, NoDiagramBlock), e)
    else Emitted(D2Block(start, e, OptionsOf(call), CodeOf(call), ctx))
  }

  lemma {:induction false} ReadsCall(t: string, k: nat, args: string, rest: string)
    requires Reads(t, k, "(" + (args + (")" + rest)))
    ensures Reads(t, k, "(" + (args + ")")) && Reads(t, k + 2 + |args|, rest)
  {
    ReadsAround(t, k, "(", args, ")" + rest);
    ReadsBoth(t, k + 1 + |args|, ")", rest);
    ReadsBoth(t, k + 1, args, ")");
    ReadsBoth(t, k, "(", args + ")");
  }

  lemma {:induction false} FullCallIsTried(t: string, start: nat, k: nat, options: Items, diagram: D2Grammar.Items,
                                           args: string, code: string, ctx: bool)
    requires start < k && args == ItemsText(options) && code == D2Grammar.ItemsText(diagram)
    requires Reads(t, k, "(" + (args + (")" + ("[" + (code + "]")))))
    requires Legal(options, Options, '(', ')') && !RawBlocks.Raw(args) && D2Grammar.Legal(diagram, true)
    ensures TryD2(t, start, k, ctx) == Emitted(D2Block(start, k + 4 + |args| + |code|, args, code, ctx))
  {
    ReadsCall(t, k, args, "[" + (code + "]"));
    OptionsAreTried(t, start, k, options, args, ctx);
    DiagramIsTried(t, start, k + 2 + |args|, diagram, args, ctx);
  }

  lemma {:induction false} BracketedIsTried(t: string, start: nat, k: nat, call: D2Call, text: string, ctx: bool)
    requires start < k && call.Bracketed? && LegalCall(call) && text == CallText(call) && Reads(t, k, text)
    ensures TryD2(t, start, k, ctx) == Verdict(call, start, k + |text|, ctx)
  {
    DiagramIsTried(t, start, k, call.diagram, "", ctx);
  }

  lemma {:induction false} OptionsCallIsTried(t: string, start: nat, k: nat, call: D2Call, text: string, ctx: bool)
    requires start < k && call.WithOptions? && LegalCall(call) && text == CallText(call) && Reads(t, k, text)
    ensures TryD2(t, start, k, ctx) == Verdict(call, start, k + |text|, ctx)
  {
    var (args, code) := (ItemsText(call.options), D2Grammar.ItemsText(call.diagram));
    assert text == "(" + (args + (")" + ("[" + (code + "]"))));
    FullCallIsTried(t, start, k, call.options, call.diagram, args, code, ctx);
  }

  lemma {:induction false} RawArgumentIsTried(t: string, start: nat, k: nat, args: string, from: nat, to: nat,
                                              body: RawBlocks.Body, ctx: bool)
    requires start < k && Reads(t, k, "(" + (args + ")"))
    requires RawBlocks.RawIn(args, from, to) && (from + 6 < to ==> args[to - 4] != '`')
    requires RawBlocks.LegalBody(body) && args[from + 3..to - 3] == RawBlocks.BodyText(body)
    ensures TryD2(t, start, k, ctx) == Emitted(D2Block(start, k + 2 + |args|, "", body.code, ctx))
  {
    RawCloses(t, k, args, from, to);
    RawBlocks.BlockIsRead(args, from, to, body);
    RawIsTried(t, start, k, args, body.code, ctx);
  }

  lemma {:induction false} RawCallIsTried(t: string, start: nat, k: nat, call: D2Call, text: string, ctx: bool)
    requires start < k && call.Raw? && LegalCall(call) && text == CallText(call) && Reads(t, k, text)
    ensures TryD2(t, start, k, ctx) == Verdict(call, start, k + |text|, ctx)
  {
    assert text == "(" + (call.args + ")");
    RawArgumentIsTried(t, start, k, call.args, call.from, call.to, call.body, ctx);
  }

  lemma {:induction false} DanglingIsTried(t: string, start: nat, k: nat, call: D2Call, text: string, ctx: bool)
    requires start < k && call.Dangling? && LegalCall(call) && text == CallText(call) && Reads(t, k, text)
    requires At(t, k + |text|) != '['
    ensures TryD2(t, start, k, ctx) == Verdict(call, start, k + |text|, ctx)
  {
    assert text == "(" + (ItemsText(call.options) + ")");
    OptionsAreTried(t, start, k, call.options, ItemsText(call.options), ctx);
  }

  /** A call is extracted whole, with its own code; one that lacks its diagram is reported. */
  lemma {:induction false} CallIsTried(t: string, start: nat, k: nat, call: D2Call, text: string, ctx: bool)
    requires start < k && LegalCall(call) && text == CallText(call) && Reads(t, k, text)
    requires call.Dangling? ==> At(t, k + |text|) != '['
    ensures TryD2(t, start, k, ctx) == Verdict(call, start, k + |text|, ctx)
  {
    match call
    case Bracketed(_) => BracketedIsTried(t, start, k, call, text, ctx);
    case WithOptions(_, _) => OptionsCallIsTried(t, start, k, call, text, ctx);
    case Raw(_, _, _, _) => RawCallIsTried(t, start, k, call, text, ctx);
    case Dangling(_) => DanglingIsTried(t, start, k, call, text, ctx);
  }

  // Where the items stand.

  lemma {:induction false} TextLength(item: Item)
    ensures |ItemText(item)| == Length(item)
    decreases item
  {
    match item
    case Apply(_, args) => TextsLength(args);
    case Paren(items) => TextsLength(items);
    case Content(items) => TextsLength(items);
    case Diagram(_, call) => CallTextLength(call);
    case _ =>
  }

  lemma {:induction false} TextsLength(items: Items)
    ensures |ItemsText(items)| == ItemsLength(items)
    decreases items
  {
    if items.Then? {
      TextLength(items.item);
      TextsLength(items.rest);
    }
  }

  lemma {:induction false} CallTextLength(call: D2Call)
    ensures |CallText(call)| == CallLength(call)
    decreases call
  {
    if call.WithOptions? || call.Dangling? { TextsLength(call.options); }
  }

  /** Everything but groups and calls. */
  predicate Leaf(item: Item) { IsOpaque(item) || item.Byte? || item.Word? || item.Hash? }

  /** The items, byte for byte, from k on. */
  predicate Spelled(t: string, k: nat, items: Items)
    decreases items, t, k
  {
    match items
    case End => k <= |t|
    case Then(item, rest) => SpelledIn(t, k, item) && Spelled(t, k + Length(item), rest)
  }

  predicate SpelledIn(t: string, k: nat, item: Item)
    decreases item, t, k
  {
    match item
    case Apply(name, args) =>
      && At(t, k) == '#' && Reads(t, k + 1, name)
      && At(t, k + 1 + |name|) == '(' && Spelled(t, k + 2 + |name|, args) && At(t, k + Length(item) - 1) == ')'
    case Paren(items) => At(t, k) == '(' && Spelled(t, k + 1, items) && At(t, k + Length(item) - 1) == ')'
    case Content(items) => At(t, k) == '[' && Spelled(t, k + 1, items) && At(t, k + Length(item) - 1) == ']'
    case Diagram(hash, call) => Reads(t, k, NameText(hash)) && Reads(t, k + |NameText(hash)|, CallText(call))
    case _ => Reads(t, k, ItemText(item))
  }

  lemma {:induction false} ReadsName(t: string, k: nat, name: string, rest: string)
    requires Reads(t, k, "#" + (name + rest))
    ensures k < |t| && t[k] == '#' && Reads(t, k + 1, name) && Reads(t, k + 1 + |name|, rest)
  {
    ReadsBoth(t, k, "#", name + rest);
    ReadsOne(t, k, '#');
    ReadsBoth(t, k + 1, name, rest);
  }

  lemma {:induction false} ReadsGroup(t: string, k: nat, open: char, text: string, close: char)
    requires Reads(t, k, [open] + (text + [close]))
    ensures At(t, k) == open && Reads(t, k + 1, text) && At(t, k + 1 + |text|) == close
  {
    ReadsAround(t, k, [open], text, [close]);
    ReadsOne(t, k, open);
    ReadsOne(t, k + 1 + |text|, close);
  }

  lemma {:induction false} ItemIsSpelled(t: string, k: nat, item: Item, text: string)
    requires text == ItemText(item) && Reads(t, k, text)
    ensures SpelledIn(t, k, item)
    decreases item
  {
    match item
    case Apply(name, args) =>
      ReadsName(t, k, name, "(" + (ItemsText(args) + ")"));
      ReadsGroup(t, k + 1 + |name|, '(', ItemsText(args), ')');
      ItemsAreSpelled(t, k + 2 + |name|, args, ItemsText(args));
      TextsLength(args);
    case Paren(items) => GroupIsSpelled(t, k, '(', items, ItemsText(items), ')');
    case Content(items) => GroupIsSpelled(t, k, '[', items, ItemsText(items), ']');
    case Diagram(hash, call) => ReadsBoth(t, k, NameText(hash), CallText(call));
    case _ =>
  }

  lemma {:induction false} GroupIsSpelled(t: string, k: nat, open: char, items: Items, text: string, close: char)
    requires text == ItemsText(items) && Reads(t, k, [open] + (text + [close]))
    ensures At(t, k) == open && Spelled(t, k + 1, items) && At(t, k + 1 + ItemsLength(items)) == close
    decreases items, 1
  {
    ReadsGroup(t, k, open, text, close);
    ItemsAreSpelled(t, k + 1, items, text);
    TextsLength(items);
  }

  lemma {:induction false} ItemsAreSpelled(t: string, k: nat, items: Items, text: string)
    requires text == ItemsText(items) && Reads(t, k, text)
    ensures Spelled(t, k, items)
    decreases items, 0
  {
    if items.Then? {
      ReadsBoth(t, k, ItemText(items.item), ItemsText(items.rest));
      TextLength(items.item);
      ItemIsSpelled(t, k, items.item, ItemText(items.item));
      ItemsAreSpelled(t, k + Length(items.item), items.rest, ItemsText(items.rest));
    }
  }

  // What the scan does at each item.

  function FrameOf(at: Place): Frame {
    match at
    case Document => DOCUMENT
    case Bracket => Frame(Markup, ']')
    case _ => Frame(Mode.Code, ')')
  }

  /** At k a call begins, and this is what becomes of it. */
  ghost predicate CallFacts(t: string, k: nat, n: nat, call: D2Call, e: nat, at: Place) {
    && k < n <= |t| && (forall room :: Act(t, k, FrameOf(at), room) == Call(k, n, at.Script?))
    && (forall ctx :: ctx == at.Script? ==> TryD2(t, k, n, ctx) == Verdict(call, k, e, ctx))
  }

  ghost predicate LeafFacts(t: string, k: nat, item: Item, at: Place) {
    Leaf(item) && Reads(t, k, ItemText(item)) && LegalItem(item, at, At(t, k - 1), At(t, k + Length(item)))
  }

  ghost predicate OpensAt(t: string, k: nat, n: nat, at: Place, inner: Place) {
    && k < n && k < |t| && (inner.Bracket? || inner.Script?)
    && (forall f, room :: f == FrameOf(at) && room ==> Act(t, k, f, room) == Open(FrameOf(inner), n))
  }

  /** a + b, one element after the other. */
  function Joined<T>(a: seq<T>, b: seq<T>): seq<T> {
    if a == [] then b else [a[0]] + Joined(a[1..], b)
  }

  lemma {:induction false} JoinedIsSum<T>(a: seq<T>, b: seq<T>)
    ensures Joined(a, b) == a + b
    decreases |a|
  {
    if a != [] {
      JoinedIsSum(a[1..], b);
      assert [a[0]] + (a[1..] + b) == a + b;
    }
  }

  lemma {:induction false} JoinedTwice<T>(a: seq<T>, b: seq<T>, c: seq<T>)
    ensures Joined(a, Joined(b, c)) == Joined(Joined(a, b), c)
  {
    JoinedIsSum(a, Joined(b, c));
    JoinedIsSum(b, c);
    JoinedIsSum(a, b);
    JoinedIsSum(a + b, c);
    assert a + (b + c) == (a + b) + c;
  }

  /** What the items are read to be: whether the scan does at each one what it should, where they end, what
      they report, and how deep they go. */
  datatype Reading = Reading(ok: bool, end: nat, blocks: seq<D2Block>, sites: seq<SkipSite>, levels: nat)

  function Deeper(a: nat, b: nat): nat { if a > b then a else b }

  /** One reading up to n, and another from there on. */
  function Chained(a: Reading, n: nat, b: Reading): Reading {
    Reading(a.ok && b.ok && a.end == n, b.end, Joined(a.blocks, b.blocks), Joined(a.sites, b.sites),
            Deeper(a.levels, b.levels))
  }

  ghost function Read(t: string, k: nat, items: Items, at: Place): Reading
    decreases items, 0, t, k, at
  {
    match items
    case End => Reading(true, k, [], [], 0)
    case Then(item, rest) =>
      Chained(ReadItem(t, k, item, at), k + Length(item), Read(t, k + Length(item), rest, at))
  }

  ghost function ReadItem(t: string, k: nat, item: Item, at: Place): Reading
    decreases item, 0, t, k, at
  {
    match item
    case Apply(name, args) => ReadGroup(t, k, k + 2 + |name|, args, at, Script)
    case Paren(items) => ReadGroup(t, k, k + 1, items, at, Script)
    case Content(items) => ReadGroup(t, k, k + 1, items, at, Bracket)
    case Diagram(hash, call) =>
      var (n, e) := (k + |NameText(hash)|, k + Length(item));
      Reading(CallFacts(t, k, n, call, e, at), e, Blocks(call, k, e, at.Script?), Sites(call, k), 0)
    case _ => Reading(LeafFacts(t, k, item, at), k + Length(item), [], [], 0)
  }

  /** A group whose items stand from n on. */
  ghost function ReadGroup(t: string, k: nat, n: nat, items: Items, at: Place, inner: Place): Reading
    decreases items, 1, t, k, n, at, inner
  {
    var r := Read(t, n, items, inner);
    Reading(r.ok && OpensAt(t, k, n, at, inner) && At(t, r.end) == FrameOf(inner).stop, r.end + 1, r.blocks, r.sites,
            1 + r.levels)
  }

  lemma {:induction false} NameIsWhole(t: string, k: nat, name: string)
    requires Reads(t, k, name) && NameChars(name) && !IsIdentChar(At(t, k + |name|))
    ensures IdentEnd(t, k) == k + |name| && (NamesD2(t, k, k + |name|) <==> name == "d2")
  {
    ReadsPoints(t, k, name);
    forall i | k <= i < k + |name| ensures IsIdentChar(t[i]) { assert t[k + (i - k)] == name[i - k]; }
    IdentEndsAt(t, k, k + |name|);
    if |name| == 2 { assert t[k + 0] == name[0] && t[k + 1] == name[1] && name == [name[0], name[1]]; }
  }

  /** The name d2, with a hash or without, where a call may stand. */
  lemma {:induction false} NameCalls(t: string, k: nat, hash: bool, at: Place, f: Frame, room: bool)
    requires Reads(t, k, if hash then "#d2" else "d2") && f == FrameOf(at) && !at.Options?
    requires var n := if hash then k + 3 else k + 2; OpensCall(At(t, n))
    requires (InMarkup(at) ==> hash) && (!hash ==> !IsIdentChar(At(t, k - 1)) && At(t, k - 1) != '.')
    ensures Act(t, k, f, room) == Call(k, if hash then k + 3 else k + 2, at.Script?)
  {
    if hash {
      ReadsThree(t, k, '#', 'd', '2');
      NameIsWhole(t, k + 1, "d2");
    } else {
      ReadsTwo(t, k, 'd', '2');
      NameIsWhole(t, k, "d2");
    }
  }

  lemma {:induction false} CallIsSpelled(t: string, k: nat, name: string, call: D2Call)
    requires name != "" && Reads(t, k, name) && Reads(t, k + |name|, CallText(call))
    ensures At(t, k) == name[0] && OpensCall(At(t, k + |name|)) && k + |name| <= |t|
    ensures At(t, k + |name| + CallLength(call) - 1) == (if call.Bracketed? || call.WithOptions? then ']' else ')')
  {
    CallEnds(call);
    CallTextLength(call);
    ReadsAt(t, k, name, 0);
    ReadsAt(t, k + |name|, CallText(call), 0);
    ReadsAt(t, k + |name|, CallText(call), CallLength(call) - 1);
  }

  /** What comes before and after an item is what the text holds there. */
  lemma {:induction false} SpelledEnds(t: string, k: nat, item: Item, at: Place, prev: char, next: char)
    requires SpelledIn(t, k, item) && LegalItem(item, at, prev, next)
    ensures At(t, k) == FirstOf(item) && At(t, k + Length(item) - 1) == LastOf(item)
  {
    if Leaf(item) {
      ItemEnds(item, at, prev, next);
      TextLength(item);
      ReadsAt(t, k, ItemText(item), 0);
      ReadsAt(t, k, ItemText(item), Length(item) - 1);
    } else if item.Diagram? {
      CallIsSpelled(t, k, NameText(item.hash), item.call);
    }
  }

  lemma {:induction false} NextIsSpelled(t: string, k: nat, items: Items, at: Place, prev: char, next: char)
    requires Spelled(t, k, items) && Legal(items, at, prev, next) && At(t, k + ItemsLength(items)) == next
    ensures At(t, k) == First(items, next)
  {
    if items.Then? { SpelledEnds(t, k, items.item, at, prev, First(items.rest, next)); }
  }

  lemma {:induction false} ApplyOpens(t: string, k: nat, name: string, at: Place)
    requires At(t, k) == '#' && Reads(t, k + 1, name) && At(t, k + 1 + |name|) == '('
    requires InMarkup(at) && name != "" && name != "d2" && NameChars(name)
    ensures OpensAt(t, k, k + 2 + |name|, at, Script)
  {
    NameIsWhole(t, k + 1, name);
  }

  lemma {:induction false} BracketOpens(t: string, k: nat, at: Place, inner: Place)
    requires !at.Options? && if inner.Script? then at.Script? && At(t, k) == '(' else inner.Bracket? && At(t, k) == '['
    ensures OpensAt(t, k, k + 1, at, inner)
  {}

  lemma {:induction false} NameCallsAnyway(t: string, k: nat, hash: bool, at: Place)
    requires Reads(t, k, NameText(hash)) && k + |NameText(hash)| <= |t| && OpensCall(At(t, k + |NameText(hash)|))
    requires !at.Options? && (InMarkup(at) ==> hash) && (!hash ==> !IsIdentChar(At(t, k - 1)) && At(t, k - 1) != '.')
    ensures forall room :: Act(t, k, FrameOf(at), room) == Call(k, k + |NameText(hash)|, at.Script?)
  {
    forall room ensures Act(t, k, FrameOf(at), room) == Call(k, k + |NameText(hash)|, at.Script?) {
      NameCalls(t, k, hash, at, FrameOf(at), room);
    }
  }

  lemma {:induction false} CallFactsHold(t: string, k: nat, hash: bool, call: D2Call, at: Place)
    requires Reads(t, k, NameText(hash)) && Reads(t, k + |NameText(hash)|, CallText(call)) && LegalCall(call)
    requires !at.Options? && (InMarkup(at) ==> hash) && (!hash ==> !IsIdentChar(At(t, k - 1)) && At(t, k - 1) != '.')
    requires call.Dangling? ==> At(t, k + |NameText(hash)| + CallLength(call)) != '['
    ensures CallFacts(t, k, k + |NameText(hash)|, call, k + |NameText(hash)| + CallLength(call), at)
  {
    CallIsSpelled(t, k, NameText(hash), call);
    CallTextLength(call);
    CallIsTried(t, k, k + |NameText(hash)|, call, CallText(call), at.Script?);
    NameCallsAnyway(t, k, hash, at);
  }

  /** Whatever the scan does, what is read is what the grammar says. */
  lemma {:induction false} ReadsAsWritten(t: string, k: nat, items: Items, at: Place)
    ensures var r := Read(t, k, items, at);
            && r.end == k + ItemsLength(items) && r.blocks == Calls(items, k, at.Script?)
            && r.sites == Missing(items, k) && r.levels == Levels(items)
    decreases items
  {
    match items
    case End =>
    case Then(item, rest) =>
      ItemAsWritten(t, k, item, at);
      ReadsAsWritten(t, k + Length(item), rest, at);
      JoinedIsSum(CallsIn(item, k, at.Script?), Calls(rest, k + Length(item), at.Script?));
      JoinedIsSum(MissingIn(item, k), Missing(rest, k + Length(item)));
  }

  lemma {:induction false} ItemAsWritten(t: string, k: nat, item: Item, at: Place)
    ensures var r := ReadItem(t, k, item, at);
            && r.end == k + Length(item) && r.blocks == CallsIn(item, k, at.Script?)
            && r.sites == MissingIn(item, k) && r.levels == LevelsIn(item)
    decreases item
  {
    match item
    case Apply(name, args) => ReadsAsWritten(t, k + 2 + |name|, args, Script);
    case Paren(items) => ReadsAsWritten(t, k + 1, items, Script);
    case Content(items) => ReadsAsWritten(t, k + 1, items, Bracket);
    case _ =>
  }

  lemma {:induction false} CallIsOk(t: string, k: nat, hash: bool, call: D2Call, at: Place)
    requires CallFacts(t, k, k + |NameText(hash)|, call, k + Length(Diagram(hash, call)), at)
    ensures ReadItem(t, k, Diagram(hash, call), at).ok
  {}

  ghost predicate Sound(t: string, k: nat, item: Item, at: Place) {
    && !at.Options? && SpelledIn(t, k, item) && LegalCallsIn(item)
    && LegalItem(item, at, At(t, k - 1), At(t, k + Length(item)))
  }

  lemma {:induction false} DiagramFacts(t: string, k: nat, hash: bool, call: D2Call, at: Place)
    requires Sound(t, k, Diagram(hash, call), at)
    ensures CallFacts(t, k, k + |NameText(hash)|, call, k + Length(Diagram(hash, call)), at)
  {
    CallFactsHold(t, k, hash, call, at);
  }

  lemma {:induction false} LeafItem(t: string, k: nat, item: Item, at: Place)
    requires Leaf(item) && Sound(t, k, item, at)
    ensures ReadItem(t, k, item, at).ok
  {}

  /** The neighbours of an item and of what follows it are in the text. */
  lemma {:induction false} Neighbours(t: string, k: nat, item: Item, rest: Items, at: Place, prev: char, next: char)
    requires SpelledIn(t, k, item) && Spelled(t, k + Length(item), rest)
    requires LegalItem(item, at, prev, First(rest, next)) && Legal(rest, at, LastOf(item), next)
    requires At(t, k + Length(item) + ItemsLength(rest)) == next
    ensures LegalItem(item, at, prev, At(t, k + Length(item)))
    ensures Legal(rest, at, At(t, k + Length(item) - 1), next)
  {
    SpelledEnds(t, k, item, at, prev, First(rest, next));
    NextIsSpelled(t, k + Length(item), rest, at, LastOf(item), next);
  }

  /** Items stand at k as they are written, with legal calls among them, and legally between their neighbours
      in the text. */
  ghost predicate AllSound(t: string, k: nat, items: Items, at: Place) {
    && !at.Options? && Spelled(t, k, items) && LegalCalls(items)
    && Legal(items, at, At(t, k - 1), At(t, k + ItemsLength(items)))
  }

  lemma {:induction false} PartsAreSound(t: string, k: nat, item: Item, rest: Items, at: Place)
    requires AllSound(t, k, Then(item, rest), at)
    ensures Sound(t, k, item, at) && AllSound(t, k + Length(item), rest, at)
  {
    Neighbours(t, k, item, rest, at, At(t, k - 1), At(t, k + Length(item) + ItemsLength(rest)));
  }

  lemma {:induction false} ReadsOn(t: string, k: nat, item: Item, rest: Items, at: Place)
    ensures Read(t, k, Then(item, rest), at) ==
            Chained(ReadItem(t, k, item, at), k + Length(item), Read(t, k + Length(item), rest, at))
  {}

  lemma {:induction false} ApplyIsOk(t: string, k: nat, name: string, args: Items, at: Place)
    requires At(t, k) == '#' && Reads(t, k + 1, name) && At(t, k + 1 + |name|) == '('
    requires InMarkup(at) && name != "" && name != "d2" && NameChars(name)
    requires AllSound(t, k + 2 + |name|, args, Script) && At(t, k + 2 + |name| + ItemsLength(args)) == ')'
    ensures ReadGroup(t, k, k + 2 + |name|, args, at, Script).ok
    decreases args, 4
  {
    ApplyOpens(t, k, name, at);
    ItemsAreOk(t, k + 2 + |name|, args, Script);
    ReadsAsWritten(t, k + 2 + |name|, args, Script);
  }

  lemma {:induction false} GroupIsOk(t: string, k: nat, items: Items, at: Place, inner: Place)
    requires !at.Options? && if inner.Script? then at.Script? && At(t, k) == '(' else inner.Bracket? && At(t, k) == '['
    requires AllSound(t, k + 1, items, inner) && At(t, k + 1 + ItemsLength(items)) == FrameOf(inner).stop
    ensures ReadGroup(t, k, k + 1, items, at, inner).ok
    decreases items, 4
  {
    BracketOpens(t, k, at, inner);
    ItemsAreOk(t, k + 1, items, inner);
    ReadsAsWritten(t, k + 1, items, inner);
  }

  lemma {:induction false} ApplyItem(t: string, k: nat, item: Item, at: Place)
    requires item.Apply? && Sound(t, k, item, at)
    ensures ReadItem(t, k, item, at).ok
    decreases item, 0
  {
    ApplyIsOk(t, k, item.name, item.args, at);
  }

  lemma {:induction false} ParenItem(t: string, k: nat, item: Item, at: Place)
    requires item.Paren? && Sound(t, k, item, at)
    ensures ReadItem(t, k, item, at).ok
    decreases item, 0
  {
    GroupIsOk(t, k, item.items, at, Script);
  }

  lemma {:induction false} ContentItem(t: string, k: nat, item: Item, at: Place)
    requires item.Content? && Sound(t, k, item, at)
    ensures ReadItem(t, k, item, at).ok
    decreases item, 0
  {
    GroupIsOk(t, k, item.items, at, Bracket);
  }

  lemma {:induction false} ItemIsOk(t: string, k: nat, item: Item, at: Place)
    requires Sound(t, k, item, at)
    ensures ReadItem(t, k, item, at).ok
    decreases item, 1
  {
    match item
    case Apply(_, _) => ApplyItem(t, k, item, at);
    case Paren(_) => ParenItem(t, k, item, at);
    case Content(_) => ContentItem(t, k, item, at);
    case Diagram(hash, call) =>
      DiagramFacts(t, k, hash, call, at);
      CallIsOk(t, k, hash, call, at);
    case _ => LeafItem(t, k, item, at);
  }

  lemma {:induction false} FirstIsOk(t: string, k: nat, item: Item, rest: Items, at: Place)
    requires Sound(t, k, item, at)
    requires Read(t, k + Length(item), rest, at).ok
    ensures Read(t, k, Then(item, rest), at).ok
    decreases item, 2
  {
    ItemIsOk(t, k, item, at);
    ItemAsWritten(t, k, item, at);
    ReadsOn(t, k, item, rest, at);
  }

  /** The scan does at each legal item what it should. */
  lemma {:induction false} ItemsAreOk(t: string, k: nat, items: Items, at: Place)
    requires AllSound(t, k, items, at)
    ensures Read(t, k, items, at).ok
    decreases items, 3
  {
    match items
    case End =>
    case Then(item, rest) =>
      PartsAreSound(t, k, item, rest, at);
      ThenAreOk(t, k, item, rest, at);
  }

  lemma {:induction false} ThenAreOk(t: string, k: nat, item: Item, rest: Items, at: Place)
    requires Sound(t, k, item, at) && AllSound(t, k + Length(item), rest, at)
    ensures Read(t, k, Then(item, rest), at).ok
    decreases Then(item, rest), 2
  {
    ItemsAreOk(t, k + Length(item), rest, at);
    FirstIsOk(t, k, item, rest, at);
  }

  // The scan.

  /** The scan stands in a region of this kind. */
  predicate Stands(at: Place, stack: seq<Frame>) {
    !at.Options? && stack != [] && stack[|stack| - 1] == FrameOf(at)
  }

  /** One run reports these, and then what the other reports. */
  predicate Reports(run: Output, blocks: seq<D2Block>, sites: seq<SkipSite>, rest: Output) {
    run.blocks == Joined(blocks, rest.blocks) && run.skipped == Joined(sites, rest.skipped)
  }

  lemma {:induction false} NewlineIsPassed(t: string, k: nat, at: Place, stack: seq<Frame>, cap: nat)
    requires Stands(at, stack) && k < |t| && t[k] == '\n'
    ensures Run(t, k, stack, cap) == Run(t, k + 1, stack, cap)
  {
    assert Act(t, k, stack[|stack| - 1], |stack| <= cap) == Advance(k + 1);
  }

  lemma {:induction false} OpaqueIsSilent(t: string, k: nat, item: Item, at: Place, stack: seq<Frame>, cap: nat)
    requires Stands(at, stack) && IsOpaque(item) && Reads(t, k, ItemText(item))
    requires LegalItem(item, at, At(t, k - 1), At(t, k + |ItemText(item)|))
    ensures Run(t, k, stack, cap) == Run(t, k + |ItemText(item)|, stack, cap)
  {
    OpaqueIsPassed(t, k, item, at, At(t, k - 1));
    assert OpaqueEnd(t, k).Some?;
    Moves(t, k, stack, cap);
    if item.Comment? { NewlineIsPassed(t, k + |ItemText(item)| - 1, at, stack, cap); }
  }

  lemma {:induction false} ByteIsSilent(t: string, k: nat, c: char, at: Place, stack: seq<Frame>, cap: nat)
    requires Stands(at, stack) && k < |t| && t[k] == c && Plain(c, at, At(t, k + 1))
    ensures Run(t, k, stack, cap) == Run(t, k + 1, stack, cap)
  {
    PlainIsNotOpaque(t, k, c, at);
    assert Act(t, k, stack[|stack| - 1], |stack| <= cap) == Advance(k + 1);
  }

  lemma {:induction false} WordIsSilent(t: string, k: nat, name: string, stack: seq<Frame>, cap: nat)
    requires Stands(Script, stack) && Reads(t, k, name) && name != "" && NameChars(name)
    requires !IsIdentChar(At(t, k - 1)) && !IsIdentChar(At(t, k + |name|))
    requires name == "d2" && At(t, k - 1) != '.' ==> !OpensCall(At(t, k + |name|))
    ensures Run(t, k, stack, cap) == Run(t, k + |name|, stack, cap)
  {
    NameIsWhole(t, k, name);
    if FollowsName(t, k) || name != "d2" {
      Silence.NameIsSilent(t, k, stack, cap);
    } else {
      ReadsAt(t, k, name, 0);
      Silence.WordIsSilent(t, k, stack, cap);
    }
  }

  lemma {:induction false} NoCallHere(t: string, k: nat, n: nat, ctx: bool, stack: seq<Frame>, cap: nat)
    requires k < n <= |t| && stack != [] && !OpensCall(At(t, n))
    requires Act(t, k, stack[|stack| - 1], |stack| <= cap) == Call(k, n, ctx)
    ensures Run(t, k, stack, cap) == Run(t, n, stack, cap)
  {
    Moves(t, k, stack, cap);
    assert RunCall(t, k, n, ctx, stack, cap) == Run(t, n, stack, cap);
  }

  lemma {:induction false} HashInMarkup(t: string, k: nat, name: string, at: Place, stack: seq<Frame>, cap: nat)
    requires Stands(at, stack) && InMarkup(at) && k < |t| && t[k] == '#' && Reads(t, k + 1, name) && NameChars(name)
    requires !IsIdentChar(At(t, k + 1 + |name|)) && (name == "d2" ==> !OpensCall(At(t, k + 1 + |name|)))
    requires name != "" ==> At(t, k + 1 + |name|) != '('
    ensures Run(t, k, stack, cap) == Run(t, k + 1 + |name|, stack, cap)
  {
    var j := k + 1 + |name|;
    NameIsWhole(t, k + 1, name);
    if name == "d2" {
      NoCallHere(t, k, j, false, stack, cap);
    } else {
      assert Act(t, k, stack[|stack| - 1], |stack| <= cap) == Advance(j);
    }
  }

  lemma {:induction false} HashAlone(t: string, k: nat, name: string)
    requires k < |t| && t[k] == '#' && Reads(t, k + 1, name) && NameChars(name) && name != "d2"
    requires !IsIdentChar(At(t, k + 1 + |name|))
    ensures !(HashD2At(t, k) && !IsIdentChar(At(t, k + 3)))
  {
    NameIsWhole(t, k + 1, name);
    ReadsPoints(t, k + 1, name);
    if |name| > 2 { assert t[k + 1 + 2] == name[2]; }
    if |name| == 1 { assert t[k + 1 + 0] == name[0]; }
  }

  lemma {:induction false} HashInScript(t: string, k: nat, name: string, stack: seq<Frame>, cap: nat)
    requires Stands(Script, stack) && k < |t| && t[k] == '#' && Reads(t, k + 1, name) && NameChars(name)
    requires !IsIdentChar(At(t, k + 1 + |name|)) && (name == "d2" ==> !OpensCall(At(t, k + 1 + |name|)))
    ensures Run(t, k, stack, cap) == Run(t, k + 1 + |name|, stack, cap)
  {
    NameIsWhole(t, k + 1, name);
    ReadsPoints(t, k + 1, name);
    if name == "d2" {
      NoCallHere(t, k, k + 3, true, stack, cap);
    } else {
      HashAlone(t, k, name);
      assert Act(t, k, stack[|stack| - 1], |stack| <= cap) == Advance(k + 1);
      if name != "" { WordIsSilent(t, k + 1, name, stack, cap); }
    }
  }

  // Regions.

  lemma {:induction false} Opens(t: string, k: nat, n: nat, f: Frame, stack: seq<Frame>, cap: nat)
    requires k < n && k < |t| && stack != [] && Act(t, k, stack[|stack| - 1], |stack| <= cap) == Open(f, n)
    ensures Run(t, k, stack, cap) == Run(t, n, stack + [f], cap)
  {
    Moves(t, k, stack, cap);
  }

  lemma {:induction false} Closes(t: string, k: nat, f: Frame, stack: seq<Frame>, cap: nat)
    requires k < |t| && t[k] == f.stop && (f.stop == ')' || f.stop == ']')
    ensures Run(t, k, stack + [f], cap) == Run(t, k + 1, stack, cap)
  {
    assert Act(t, k, f, |stack| + 1 <= cap) == Close(k + 1);
    Moves(t, k, stack + [f], cap);
    assert (stack + [f])[..|stack|] == stack;
  }

  lemma {:induction false} VerdictIsReported(t: string, k: nat, n: nat, call: D2Call, e: nat, ctx: bool,
                                             stack: seq<Frame>, cap: nat)
    requires k < n <= |t| && stack != [] && TryD2(t, k, n, ctx) == Verdict(call, k, e, ctx)
    ensures Reports(RunCall(t, k, n, ctx, stack, cap), Blocks(call, k, e, ctx), Sites(call, k), Run(t, e, stack, cap))
  {
    var rest := Run(t, e, stack, cap);
    if call.Dangling? {
      assert RunCall(t, k, n, ctx, stack, cap) == Skipped(SkipSite(k, NoDiagramBlock), rest);
    } else {
      assert RunCall(t, k, n, ctx, stack, cap)
          == Found(D2Block(k, e, OptionsOf(call), CodeOf(call), ctx), |stack| - 1, rest);
    }
  }

  /** A call, from its name on. */
  lemma {:induction false} CallIsFound(t: string, k: nat, n: nat, call: D2Call, e: nat, ctx: bool, stack: seq<Frame>,
                                       cap: nat)
    requires k < n <= |t| && stack != [] && Act(t, k, stack[|stack| - 1], |stack| <= cap) == Call(k, n, ctx)
    requires TryD2(t, k, n, ctx) == Verdict(call, k, e, ctx)
    ensures Reports(Run(t, k, stack, cap), Blocks(call, k, e, ctx), Sites(call, k), Run(t, e, stack, cap))
  {
    Moves(t, k, stack, cap);
    VerdictIsReported(t, k, n, call, e, ctx, stack, cap);
  }

  lemma {:induction false} HashIsSilent(t: string, k: nat, name: string, at: Place, stack: seq<Frame>, cap: nat)
    requires Stands(at, stack) && Reads(t, k, "#" + name)
    requires LegalItem(Hash(name), at, At(t, k - 1), At(t, k + 1 + |name|))
    ensures Run(t, k, stack, cap) == Run(t, k + 1 + |name|, stack, cap)
  {
    ReadsBoth(t, k, "#", name);
    ReadsOne(t, k, '#');
    if InMarkup(at) {
      HashInMarkup(t, k, name, at, stack, cap);
    } else {
      HashInScript(t, k, name, stack, cap);
    }
  }

  lemma {:induction false} LeafIsSilent(t: string, k: nat, item: Item, text: string, at: Place, stack: seq<Frame>,
                                        cap: nat)
    requires Stands(at, stack) && Leaf(item) && text == ItemText(item) && Reads(t, k, text)
    requires LegalItem(item, at, At(t, k - 1), At(t, k + |text|))
    ensures Run(t, k, stack, cap) == Run(t, k + |text|, stack, cap)
  {
    match item
    case Byte(c) =>
      ReadsOne(t, k, c);
      ByteIsSilent(t, k, c, at, stack, cap);
    case Word(name) => WordIsSilent(t, k, name, stack, cap);
    case Hash(name) => HashIsSilent(t, k, name, at, stack, cap);
    case _ => OpaqueIsSilent(t, k, item, at, stack, cap);
  }

  lemma {:induction false} ReportsJoin(a: Output, blocks: seq<D2Block>, sites: seq<SkipSite>, b: Output,
                                       blocks2: seq<D2Block>, sites2: seq<SkipSite>, c: Output)
    requires Reports(a, blocks, sites, b) && Reports(b, blocks2, sites2, c)
    ensures Reports(a, Joined(blocks, blocks2), Joined(sites, sites2), c)
  {
    JoinedTwice(blocks, blocks2, c.blocks);
    JoinedTwice(sites, sites2, c.skipped);
  }

  // Documents.

  /** The regions have room for so many levels more. */
  predicate Room(levels: nat, stack: seq<Frame>, cap: nat) { |stack| + levels <= cap + 1 }

  lemma {:induction false} LeafIsScanned(t: string, k: nat, item: Item, at: Place, stack: seq<Frame>, cap: nat)
    requires Stands(at, stack) && LeafFacts(t, k, item, at)
    ensures Run(t, k, stack, cap) == Run(t, k + Length(item), stack, cap)
  {
    TextLength(item);
    LeafIsSilent(t, k, item, ItemText(item), at, stack, cap);
  }

  lemma {:induction false} CallIsScanned(t: string, k: nat, n: nat, call: D2Call, e: nat, at: Place, stack: seq<Frame>,
                                         cap: nat)
    requires Stands(at, stack) && CallFacts(t, k, n, call, e, at)
    ensures Reports(Run(t, k, stack, cap), Blocks(call, k, e, at.Script?), Sites(call, k), Run(t, e, stack, cap))
  {
    assert Act(t, k, FrameOf(at), |stack| <= cap) == Call(k, n, at.Script?);
    CallIsFound(t, k, n, call, e, at.Script?, stack, cap);
  }

  /** The run from k on reports what was read, and goes on from its end. */
  ghost predicate AsRead(t: string, k: nat, r: Reading, stack: seq<Frame>, cap: nat) {
    Reports(Run(t, k, stack, cap), r.blocks, r.sites, Run(t, r.end, stack, cap))
  }

  lemma {:induction false} DiagramScanned(t: string, k: nat, item: Item, at: Place, r: Reading, stack: seq<Frame>,
                                          cap: nat)
    requires item.Diagram? && Stands(at, stack) && r == ReadItem(t, k, item, at) && r.ok && Room(r.levels, stack, cap)
    ensures AsRead(t, k, r, stack, cap)
  {
    CallIsScanned(t, k, k + |NameText(item.hash)|, item.call, r.end, at, stack, cap);
  }

  lemma {:induction false} LeafScanned(t: string, k: nat, item: Item, at: Place, r: Reading, stack: seq<Frame>,
                                       cap: nat)
    requires Leaf(item) && Stands(at, stack) && r == ReadItem(t, k, item, at) && r.ok && Room(r.levels, stack, cap)
    ensures AsRead(t, k, r, stack, cap)
  {
    LeafIsScanned(t, k, item, at, stack, cap);
  }

  /** A group: what opens it, its items, and the byte that closes it. */
  lemma {:induction false} GroupIsScanned(t: string, k: nat, n: nat, items: Items, at: Place, inner: Place,
                                          r: Reading, stack: seq<Frame>, cap: nat)
    requires Stands(at, stack) && r == ReadGroup(t, k, n, items, at, inner) && r.ok && Room(r.levels, stack, cap)
    ensures AsRead(t, k, r, stack, cap)
    decreases items, 1
  {
    Opens(t, k, n, FrameOf(inner), stack, cap);
    var within := Read(t, n, items, inner);
    ItemsAreScanned(t, n, items, inner, within, stack + [FrameOf(inner)], cap);
    Closes(t, within.end, FrameOf(inner), stack, cap);
  }

  lemma {:induction false} ApplyScanned(t: string, k: nat, item: Item, at: Place, r: Reading, stack: seq<Frame>,
                                        cap: nat)
    requires item.Apply? && Stands(at, stack) && r == ReadItem(t, k, item, at) && r.ok && Room(r.levels, stack, cap)
    ensures AsRead(t, k, r, stack, cap)
    decreases item, 0
  {
    var n := k + 2 + |item.name|;
    GroupIsScanned(t, k, n, item.args, at, Script, r, stack, cap);
  }

  lemma {:induction false} ParenScanned(t: string, k: nat, item: Item, at: Place, r: Reading, stack: seq<Frame>,
                                        cap: nat)
    requires item.Paren? && Stands(at, stack) && r == ReadItem(t, k, item, at) && r.ok && Room(r.levels, stack, cap)
    ensures AsRead(t, k, r, stack, cap)
    decreases item, 0
  {
    GroupIsScanned(t, k, k + 1, item.items, at, Script, r, stack, cap);
  }

  lemma {:induction false} ContentScanned(t: string, k: nat, item: Item, at: Place, r: Reading, stack: seq<Frame>,
                                          cap: nat)
    requires item.Content? && Stands(at, stack) && r == ReadItem(t, k, item, at) && r.ok && Room(r.levels, stack, cap)
    ensures AsRead(t, k, r, stack, cap)
    decreases item, 0
  {
    GroupIsScanned(t, k, k + 1, item.items, at, Bracket, r, stack, cap);
  }

  lemma {:induction false} ItemIsScanned(t: string, k: nat, item: Item, at: Place, r: Reading, stack: seq<Frame>,
                                         cap: nat)
    requires Stands(at, stack) && r == ReadItem(t, k, item, at) && r.ok && Room(r.levels, stack, cap)
    ensures AsRead(t, k, r, stack, cap)
    decreases item, 1
  {
    match item
    case Apply(_, _) => ApplyScanned(t, k, item, at, r, stack, cap);
    case Paren(_) => ParenScanned(t, k, item, at, r, stack, cap);
    case Content(_) => ContentScanned(t, k, item, at, r, stack, cap);
    case Diagram(_, _) => DiagramScanned(t, k, item, at, r, stack, cap);
    case _ => LeafScanned(t, k, item, at, r, stack, cap);
  }

  lemma {:induction false} ItemsAreScanned(t: string, k: nat, items: Items, at: Place, r: Reading, stack: seq<Frame>,
                                           cap: nat)
    requires Stands(at, stack) && r == Read(t, k, items, at) && r.ok && Room(r.levels, stack, cap)
    ensures AsRead(t, k, r, stack, cap)
    decreases items, 0
  {
    match items
    case End =>
    case Then(item, rest) =>
      var (a, b) := (ReadItem(t, k, item, at), Read(t, k + Length(item), rest, at));
      ItemIsScanned(t, k, item, at, a, stack, cap);
      ItemsAreScanned(t, a.end, rest, at, b, stack, cap);
      ReportsJoin(Run(t, k, stack, cap), a.blocks, a.sites, Run(t, a.end, stack, cap), b.blocks, b.sites,
                  Run(t, b.end, stack, cap));
  }

  lemma {:induction false} LastCommentIsSilent(t: string, k: nat, body: string, stack: seq<Frame>, cap: nat)
    requires stack != [] && Reads(t, k, "//" + body) && k + 2 + |body| == |t| && '\n' !in body
    ensures Run(t, k, stack, cap) == NOTHING
  {
    ReadsBoth(t, k, "//", body);
    ReadsTwo(t, k, '/', '/');
    ReadsPoints(t, k + 2, body);
    forall i | k + 2 <= i < |t| ensures t[i] != '\n' { assert t[k + 2 + (i - k - 2)] == body[i - k - 2]; }
    CharIsAt(t, '\n', k + 2, |t|);
    assert OpaqueEnd(t, k) == Some(|t|);
    Moves(t, k, stack, cap);
  }

  /** A call that fails, with nothing after it. */
  lemma {:induction false} FailureIsReported(t: string, k: nat, site: SkipSite, stack: seq<Frame>, cap: nat)
    requires k + 3 <= |t| && stack != [] && TryD2(t, k, k + 3, false) == Failed(site, |t|)
    requires Act(t, k, stack[|stack| - 1], |stack| <= cap) == Call(k, k + 3, false)
    ensures Run(t, k, stack, cap).blocks == [] && Run(t, k, stack, cap).skipped == [site]
  {
    Moves(t, k, stack, cap);
    assert RunCall(t, k, k + 3, false, stack, cap) == Skipped(site, Run(t, |t|, stack, cap));
  }

  lemma {:induction false} OpenOptionsFail(t: string, start: nat, k: nat, options: Items, text: string)
    requires start < k && text == ItemsText(options) && Legal(options, Options, '(', '\0')
    requires Reads(t, k, "(" + text) && k + 1 + |text| == |t|
    ensures At(t, k) == '(' && TryD2(t, start, k, false) == Failed(SkipSite(start, UnbalancedOptions), |t|)
  {
    ReadsBoth(t, k, "(", text);
    ReadsOne(t, k, '(');
    OptionsArePassed(t, k + 1, options, '(', 1);
  }

  lemma {:induction false} OpenDiagramFails(t: string, start: nat, k: nat, diagram: D2Grammar.Items,
                                            text: string)
    requires start < k && text == D2Grammar.ItemsText(diagram) && D2Grammar.Legal(diagram, true)
    requires Reads(t, k, "[" + text) && k + 1 + |text| == |t|
    ensures At(t, k) == '[' && TryD2(t, start, k, false) == Failed(SkipSite(start, UnbalancedDiagram), |t|)
  {
    ReadsBoth(t, k, "[", text);
    ReadsOne(t, k, '[');
    D2Grammar.ItemsArePassed(t, k + 1, diagram, 1, true);
  }

  lemma {:induction false} OpenOptionsAreReported(t: string, k: nat, options: Items, text: string, stack: seq<Frame>,
                                                  cap: nat)
    requires stack != [] && stack[|stack| - 1] == DOCUMENT && Legal(options, Options, '(', '\0')
    requires text == ItemsText(options) && Reads(t, k, "#d2" + ("(" + text)) && k + 4 + |text| == |t|
    ensures Run(t, k, stack, cap).blocks == [] && Run(t, k, stack, cap).skipped == [SkipSite(k, UnbalancedOptions)]
  {
    ReadsBoth(t, k, "#d2", "(" + text);
    OpenOptionsFail(t, k, k + 3, options, text);
    NameCalls(t, k, true, Document, DOCUMENT, |stack| <= cap);
    FailureIsReported(t, k, SkipSite(k, UnbalancedOptions), stack, cap);
  }

  lemma {:induction false} OpenDiagramIsReported(t: string, k: nat, diagram: D2Grammar.Items, text: string,
                                                 stack: seq<Frame>, cap: nat)
    requires stack != [] && stack[|stack| - 1] == DOCUMENT && D2Grammar.Legal(diagram, true)
    requires text == D2Grammar.ItemsText(diagram) && Reads(t, k, "#d2" + ("[" + text)) && k + 4 + |text| == |t|
    ensures Run(t, k, stack, cap).blocks == [] && Run(t, k, stack, cap).skipped == [SkipSite(k, UnbalancedDiagram)]
  {
    ReadsBoth(t, k, "#d2", "[" + text);
    OpenDiagramFails(t, k, k + 3, diagram, text);
    NameCalls(t, k, true, Document, DOCUMENT, |stack| <= cap);
    FailureIsReported(t, k, SkipSite(k, UnbalancedDiagram), stack, cap);
  }

  lemma {:induction false} TailIsScanned(t: string, k: nat, tail: Tail, text: string, stack: seq<Frame>, cap: nat)
    requires stack != [] && stack[|stack| - 1] == DOCUMENT && LegalTail(tail)
    requires text == TailText(tail) && Reads(t, k, text) && k + |text| == |t|
    ensures Run(t, k, stack, cap).blocks == [] && Run(t, k, stack, cap).skipped == TailSites(tail, k)
  {
    match tail
    case Ended =>
    case LastComment(body) => LastCommentIsSilent(t, k, body, stack, cap);
    case OpenOptions(options) => OpenOptionsAreReported(t, k, options, ItemsText(options), stack, cap);
    case OpenDiagram(diagram) => OpenDiagramIsReported(t, k, diagram, D2Grammar.ItemsText(diagram), stack, cap);
  }

  lemma {:induction false} DocumentIsRead(t: string, doc: Items, text: string, next: char) returns (r: Reading)
    requires text == ItemsText(doc) && Reads(t, 0, text) && At(t, |text|) == next
    requires Legal(doc, Document, '\0', next) && LegalCalls(doc)
    ensures r == Read(t, 0, doc, Document) && r.ok && r.end == |text| == ItemsLength(doc)
    ensures r.blocks == Calls(doc, 0, false) && r.sites == Missing(doc, 0) && r.levels == Levels(doc)
  {
    r := Read(t, 0, doc, Document);
    TextsLength(doc);
    ItemsAreSpelled(t, 0, doc, text);
    ItemsAreOk(t, 0, doc, Document);
    ReadsAsWritten(t, 0, doc, Document);
  }

  lemma {:induction false} NextByte(t: string, k: nat, end: string)
    requires Reads(t, k, end) && k + |end| == |t|
    ensures At(t, k) == At(end, 0)
  {
    if end != "" { ReadsAt(t, k, end, 0); }
  }

  lemma {:induction false} DocumentIsScanned(t: string, doc: Items, text: string, tail: Tail, end: string,
                                             stack: seq<Frame>, cap: nat)
    requires text == ItemsText(doc) && end == TailText(tail)
    requires Reads(t, 0, text) && Reads(t, |text|, end) && |text| + |end| == |t|
    requires Legal(doc, Document, '\0', At(end, 0)) && LegalCalls(doc) && LegalTail(tail)
    requires Stands(Document, stack) && Room(Levels(doc), stack, cap)
    ensures var run := Run(t, 0, stack, cap);
            run.blocks == Calls(doc, 0, false) && run.skipped == Missing(doc, 0) + TailSites(tail, ItemsLength(doc))
  {
    NextByte(t, |text|, end);
    var r := DocumentIsRead(t, doc, text, At(end, 0));
    ItemsAreScanned(t, 0, doc, Document, r, stack, cap);
    TailIsScanned(t, |text|, tail, end, stack, cap);
    JoinedIsSum(r.blocks, []);
    JoinedIsSum(r.sites, TailSites(tail, |text|));
  }

  /** In a legal document nested below the cap, the blocks that are found are exactly its calls, each with
      its span, its options and its code, in order; and the places that are reported are exactly those where
      a diagram is missing or a call is not closed. */
  lemma {:induction false} EveryCallIsFound(doc: Items, tail: Tail)
    requires Legal(doc, Document, '\0', At(TailText(tail), 0)) && LegalCalls(doc) && LegalTail(tail)
    requires Levels(doc) <= MAX_SCAN_DEPTH
    ensures var out := Scan(ItemsText(doc) + TailText(tail));
            out.blocks == Calls(doc, 0, false) && out.skipped == Missing(doc, 0) + TailSites(tail, ItemsLength(doc))
  {
    var (text, end) := (ItemsText(doc), TailText(tail));
    var t := text + end;
    ReadsSlice(t, 0, |t|);
    assert t[0..|t|] == t;
    ReadsBoth(t, 0, text, end);
    DocumentIsScanned(t, doc, text, tail, end, [DOCUMENT], MAX_SCAN_DEPTH);
  }

  lemma {:induction false} ArgumentsExample() returns (args: Items)
    ensures ItemsText(args) == "d2[x]" && ItemsLength(args) == 5
    ensures Legal(args, Script, '(', ')') && LegalCalls(args) && Levels(args) == 0
    ensures Calls(args, 5, true) == [D2Block(5, 10, "", "x", true)]
  {
    var code := D2Grammar.Then(D2Grammar.Plain('x'), D2Grammar.End);
    var call := Diagram(false, Bracketed(code));
    args := Then(call, End);
    assert D2Grammar.ItemsText(code) == "x" && CallText(call.call) == "[x]" && ItemText(call) == "d2[x]";
  }

  /** A call among the arguments of a function. */
  lemma {:induction false} CallInArguments() returns (doc: Items)
    ensures ItemsText(doc) == "#fig(d2[x])" && Scan(ItemsText(doc)).blocks == [D2Block(5, 10, "", "x", true)]
  {
    var args := ArgumentsExample();
    doc := Then(Apply("fig", args), End);
    assert ItemText(doc.item) == "#fig(d2[x])";
    EveryCallIsFound(doc, Ended);
    assert ItemsText(doc) + TailText(Ended) == ItemsText(doc);
  }
}
