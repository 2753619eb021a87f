/** Parameter lists by grammar rather than by nesting depth, and what the splitter and the cutter make of
    them. */
module ParamGrammar {
  import opened Text
  import opened Signature
  import D2Grammar

  /** A byte, a string, or a group in brackets of one kind. */
  datatype Item =
    | Plain(c: char)
    | Str(body: string)
    | Group(open: char, items: Items, close: char)

  datatype Items = End | Then(item: Item, rest: Items)

  function ItemText(item: Item): string {
    match item
    case Plain(c) => [c]
    case Str(body) => "\"" + (body + "\"")
    case Group(open, items, close) => [open] + (ItemsText(items) + [close])
  }

  function ItemsText(items: Items): string {
    match items
    case End => ""
    case Then(item, rest) => ItemText(item) + ItemsText(rest)
  }

  predicate Pair(open: char, close: char) {
    (open == '(' && close == ')') || (open == '[' && close == ']') || (open == '{' && close == '}')
  }

  predicate Special(c: char) {
    c == '"' || c == '(' || c == ')' || c == '[' || c == ']' || c == '{' || c == '}'
  }

  predicate LegalItem(item: Item) {
    match item
    case Plain(c) => !Special(c)
    case Str(body) => D2Grammar.StringBody(body)
    case Group(open, items, close) => Pair(open, close) && Legal(items)
  }

  predicate Legal(items: Items) {
    match items
    case End => true
    case Then(item, rest) => LegalItem(item) && Legal(rest)
  }

  /** The separator does not stand outside every group and string. */
  predicate Free(items: Items, sep: char) {
    match items
    case End => true
    case Then(item, rest) => item != Plain(sep) && Free(rest, sep)
  }

  // What one pass over an item does.

  lemma {:induction false} ReadsGroup(s: string, k: nat, open: char, text: string, close: char)
    requires Reads(s, k, [open] + (text + [close]))
    ensures k < |s| && s[k] == open && Reads(s, k + 1, text) && k + 1 + |text| < |s| && s[k + 1 + |text|] == close
  {
    ReadsBoth(s, k, [open], text + [close]);
    ReadsOne(s, k, open);
    ReadsBoth(s, k + 1, text, [close]);
    ReadsOne(s, k + 1 + |text|, close);
  }

  /** Inside a string nothing is cut. */
  lemma {:induction false} BodyIsNotSplit(s: string, start: nat, k: nat, body: string, depth: int)
    requires start <= k && Reads(s, k, body) && D2Grammar.StringBody(body)
    ensures SplitFrom(s, start, k, Lex(depth, Inside)) == SplitFrom(s, start, k + |body|, Lex(depth, Inside))
    decreases |body|
  {
    if body != "" {
      if body[0] == '\\' {
        assert body[1..][1..] == body[2..];
        assert SplitFrom(s, start, k + 1, Lex(depth, Escaped)) == SplitFrom(s, start, k + 2, Lex(depth, Inside));
        BodyIsNotSplit(s, start, k + 2, body[2..], depth);
      } else {
        BodyIsNotSplit(s, start, k + 1, body[1..], depth);
      }
    }
  }

  lemma {:induction false} BodyIsNotCut(s: string, sep: char, k: nat, body: string, depth: int)
    requires Reads(s, k, body) && D2Grammar.StringBody(body)
    ensures CutFrom(s, sep, k, Lex(depth, Inside)) == CutFrom(s, sep, k + |body|, Lex(depth, Inside))
    decreases |body|
  {
    if body != "" {
      if body[0] == '\\' {
        assert body[1..][1..] == body[2..];
        assert CutFrom(s, sep, k + 1, Lex(depth, Escaped)) == CutFrom(s, sep, k + 2, Lex(depth, Inside));
        BodyIsNotCut(s, sep, k + 2, body[2..], depth);
      } else {
        BodyIsNotCut(s, sep, k + 1, body[1..], depth);
      }
    }
  }

  lemma {:induction false} QuotedIsNotSplit(s: string, start: nat, k: nat, body: string, depth: int)
    requires start <= k && Reads(s, k, "\"" + (body + "\"")) && D2Grammar.StringBody(body)
    ensures var l := Lex(depth, Outside); SplitFrom(s, start, k, l) == SplitFrom(s, start, k + |body| + 2, l)
  {
    ReadsGroup(s, k, '"', body, '"');
    BodyIsNotSplit(s, start, k + 1, body, depth);
  }

  lemma {:induction false} QuotedIsNotCut(s: string, sep: char, k: nat, body: string, depth: int)
    requires Reads(s, k, "\"" + (body + "\"")) && D2Grammar.StringBody(body) && !Special(sep)
    ensures var l := Lex(depth, Outside); CutFrom(s, sep, k, l) == CutFrom(s, sep, k + |body| + 2, l)
  {
    ReadsGroup(s, k, '"', body, '"');
    BodyIsNotCut(s, sep, k + 1, body, depth);
  }

  lemma {:induction false} GroupIsNotSplit(s: string, start: nat, k: nat, e: nat, depth: nat)
    requires start <= k < e < |s| && Pair(s[k], s[e])
    requires SplitFrom(s, start, k + 1, Lex(depth + 1, Outside)) == SplitFrom(s, start, e, Lex(depth + 1, Outside))
    ensures SplitFrom(s, start, k, Lex(depth, Outside)) == SplitFrom(s, start, e + 1, Lex(depth, Outside))
  {}

  lemma {:induction false} GroupIsNotCut(s: string, sep: char, k: nat, e: nat, depth: nat)
    requires k < e < |s| && Pair(s[k], s[e]) && !Special(sep)
    requires CutFrom(s, sep, k + 1, Lex(depth + 1, Outside)) == CutFrom(s, sep, e, Lex(depth + 1, Outside))
    ensures CutFrom(s, sep, k, Lex(depth, Outside)) == CutFrom(s, sep, e + 1, Lex(depth, Outside))
  {}

  lemma {:induction false} ItemIsNotSplit(s: string, start: nat, k: nat, item: Item, depth: nat)
    requires start <= k && Reads(s, k, ItemText(item)) && LegalItem(item) && (depth == 0 ==> item != Plain(','))
    ensures var l := Lex(depth, Outside);
            SplitFrom(s, start, k, l) == SplitFrom(s, start, k + |ItemText(item)|, l)
    decreases item
  {
    match item
    case Plain(c) => ReadsOne(s, k, c);
    case Str(body) => QuotedIsNotSplit(s, start, k, body, depth);
    case Group(open, items, close) =>
      ReadsGroup(s, k, open, ItemsText(items), close);
      ItemsAreNotSplit(s, start, k + 1, items, depth + 1);
      GroupIsNotSplit(s, start, k, k + 1 + |ItemsText(items)|, depth);
  }

  lemma {:induction false} ItemsAreNotSplit(s: string, start: nat, k: nat, items: Items, depth: nat)
    requires start <= k && Reads(s, k, ItemsText(items)) && Legal(items) && (depth == 0 ==> Free(items, ','))
    ensures var l := Lex(depth, Outside);
            SplitFrom(s, start, k, l) == SplitFrom(s, start, k + |ItemsText(items)|, l)
    decreases items
  {
    match items
    case End =>
    case Then(item, rest) =>
      ReadsBoth(s, k, ItemText(item), ItemsText(rest));
      ItemIsNotSplit(s, start, k, item, depth);
      ItemsAreNotSplit(s, start, k + |ItemText(item)|, rest, depth);
  }

  lemma {:induction false} ItemIsNotCut(s: string, sep: char, k: nat, item: Item, depth: nat)
    requires Reads(s, k, ItemText(item)) && LegalItem(item) && !Special(sep) && (depth == 0 ==> item != Plain(sep))
    ensures var l := Lex(depth, Outside); CutFrom(s, sep, k, l) == CutFrom(s, sep, k + |ItemText(item)|, l)
    decreases item
  {
    match item
    case Plain(c) => ReadsOne(s, k, c);
    case Str(body) => QuotedIsNotCut(s, sep, k, body, depth);
    case Group(open, items, close) =>
      ReadsGroup(s, k, open, ItemsText(items), close);
      ItemsAreNotCut(s, sep, k + 1, items, depth + 1);
      GroupIsNotCut(s, sep, k, k + 1 + |ItemsText(items)|, depth);
  }

  lemma {:induction false} ItemsAreNotCut(s: string, sep: char, k: nat, items: Items, depth: nat)
    requires Reads(s, k, ItemsText(items)) && Legal(items) && !Special(sep) && (depth == 0 ==> Free(items, sep))
    ensures var l := Lex(depth, Outside); CutFrom(s, sep, k, l) == CutFrom(s, sep, k + |ItemsText(items)|, l)
    decreases items
  {
    match items
    case End =>
    case Then(item, rest) =>
      ReadsBoth(s, k, ItemText(item), ItemsText(rest));
      ItemIsNotCut(s, sep, k, item, depth);
      ItemsAreNotCut(s, sep, k + |ItemText(item)|, rest, depth);
  }

  // What the splitter and the cutter find.

  function Texts(parts: seq<Items>): (r: seq<string>)
    ensures |r| == |parts| && forall i | 0 <= i < |r| :: r[i] == ItemsText(parts[i])
  {
    seq(|parts|, i requires 0 <= i < |parts| => ItemsText(parts[i]))
  }

  /** All but a blank last one. */
  function Kept(texts: seq<string>): seq<string> {
    if texts != [] && Blank(texts[|texts| - 1]) then texts[..|texts| - 1] else texts
  }

  lemma {:induction false} KeptFirst(texts: seq<string>)
    requires |texts| > 1
    ensures Kept(texts) == [texts[0]] + Kept(texts[1..])
  {
    var n := |texts| - 1;
    assert texts[..n] == [texts[0]] + texts[1..][..n - 1] && texts == [texts[0]] + texts[1..];
  }

  lemma {:induction false} SliceIs(s: string, k: nat, p: string)
    requires Reads(s, k, p)
    ensures k + |p| <= |s| && s[k..k + |p|] == p
    decreases |p|
  {
    if p != "" {
      SliceIs(s, k + 1, p[1..]);
      assert s[k..k + |p|] == [s[k]] + s[k + 1..k + |p|];
    }
  }

  lemma {:induction false} LastPart(s: string, k: nat, part: Items, text: string)
    requires text == ItemsText(part) && Reads(s, k, text) && k + |text| == |s| && Legal(part) && Free(part, ',')
    ensures SplitFrom(s, k, k, TOP) == if Blank(text) then [] else [text]
  {
    ItemsAreNotSplit(s, k, k, part, 0);
    SliceIs(s, k, text);
    assert s[k..] == s[k..|s|];
  }

  lemma {:induction false} FirstPart(s: string, k: nat, part: Items, text: string, tail: string)
    requires text == ItemsText(part) && Reads(s, k, text + "," + tail) && Legal(part) && Free(part, ',')
    ensures var m := k + |text|;
            && m < |s| && Reads(s, m + 1, tail)
            && SplitFrom(s, k, k, TOP) == [text] + SplitFrom(s, m + 1, m + 1, TOP)
  {
    var m := k + |text|;
    ReadsBoth(s, k, text + ",", tail);
    ReadsBoth(s, k, text, ",");
    ReadsOne(s, m, ',');
    ItemsAreNotSplit(s, k, k, part, 0);
    SliceIs(s, k, text);
  }

  /** The list is cut into exactly its parts, but for a blank last one. */
  lemma {:induction false} PartsAreSplit(s: string, k: nat, parts: seq<Items>, texts: seq<string>)
    requires parts != [] && texts == Texts(parts)
    requires Reads(s, k, Join(texts, ",")) && k + |Join(texts, ",")| == |s|
    requires forall i | 0 <= i < |parts| :: Legal(parts[i]) && Free(parts[i], ',')
    ensures SplitFrom(s, k, k, TOP) == Kept(texts)
    decreases |parts|
  {
    if |parts| == 1 {
      LastPart(s, k, parts[0], texts[0]);
    } else {
      FirstPart(s, k, parts[0], texts[0], Join(texts[1..], ","));
      PartsAreSplit(s, k + |texts[0]| + 1, parts[1..], texts[1..]);
      KeptFirst(texts);
    }
  }

  /** A list of legal parts without bare commas splits into exactly these parts; a blank last one is
      dropped. */
  lemma {:induction false} SplitReadsParts(parts: seq<Items>)
    requires forall i | 0 <= i < |parts| :: Legal(parts[i]) && Free(parts[i], ',')
    ensures Split(Join(Texts(parts), ",")) == Kept(Texts(parts))
  {
    var s := Join(Texts(parts), ",");
    if parts != [] {
      ReadsSlice(s, 0, |s|);
      assert s[0..|s|] == s;
      PartsAreSplit(s, 0, parts, Texts(parts));
    }
  }

  /** The cut is at the first separator outside every group and string. */
  lemma {:induction false} CutIsFirst(before: Items, sep: char, after: string)
    requires Legal(before) && Free(before, sep) && !Special(sep)
    ensures CutFrom(ItemsText(before) + [sep] + after, sep, 0, TOP) == Some(|ItemsText(before)|)
  {
    var text := ItemsText(before);
    var s := text + [sep] + after;
    ReadsSlice(s, 0, |text|);
    assert s[0..|text|] == text;
    ItemsAreNotCut(s, sep, 0, before, 0);
    assert s[|text|] == sep;
  }

  /** And there is none where no such separator stands. */
  lemma {:induction false} NothingIsCut(items: Items, sep: char)
    requires Legal(items) && Free(items, sep) && !Special(sep)
    ensures CutFrom(ItemsText(items), sep, 0, TOP) == None
  {
    var s := ItemsText(items);
    ReadsSlice(s, 0, |s|);
    assert s[0..|s|] == s;
    ItemsAreNotCut(s, sep, 0, items, 0);
  }

  // Words.

  /** Words, each with what stands before it. */
  function Spaced(words: seq<string>, gaps: seq<string>): string
    requires |words| == |gaps|
  {
    if words == [] then "" else gaps[0] + (words[0] + Spaced(words[1..], gaps[1..]))
  }

  predicate IsWord(w: string) { w != "" && forall i | 0 <= i < |w| :: !IsSpace(w[i]) }

  /** Words apart from each other. */
  predicate Apart(words: seq<string>, gaps: seq<string>) {
    && |words| == |gaps|
    && forall i | 0 <= i < |words| :: IsWord(words[i]) && Blank(gaps[i]) && (i > 0 ==> gaps[i] != "")
  }

  /** The same with one space before each. */
  function Followed(words: seq<string>): string {
    if words == [] then "" else " " + (words[0] + Followed(words[1..]))
  }

  lemma {:induction false} GapIsSqueezed(gap: string, rest: string, g: Gap)
    requires Blank(gap)
    ensures Squeeze(gap + rest, g) == Squeeze(rest, if gap == "" then g else if g.Start? then Start else Between)
    decreases |gap|
  {
    if gap == "" {
      assert gap + rest == rest;
    } else {
      assert (gap + rest)[1..] == gap[1..] + rest;
      GapIsSqueezed(gap[1..], rest, if g.Start? then Start else Between);
    }
  }

  lemma {:induction false} WordIsKept(w: string, rest: string, g: Gap)
    requires IsWord(w)
    ensures Squeeze(w + rest, g) == (if g.Between? then " " else "") + (w + Squeeze(rest, InWord))
    decreases |w|
  {
    assert (w + rest)[1..] == w[1..] + rest;
    if |w| == 1 {
      assert w[1..] + rest == rest;
    } else {
      WordIsKept(w[1..], rest, InWord);
      assert [w[0]] + (w[1..] + Squeeze(rest, InWord)) == w + Squeeze(rest, InWord);
    }
  }

  lemma OthersApart(words: seq<string>, gaps: seq<string>)
    requires Apart(words, gaps) && words != []
    ensures Apart(words[1..], gaps[1..]) && (|words| > 1 ==> gaps[1..][0] != "")
  {}

  lemma {:induction false} LaterWords(words: seq<string>, gaps: seq<string>, last: string)
    requires Apart(words, gaps) && Blank(last) && (words != [] ==> gaps[0] != "")
    ensures Squeeze(Spaced(words, gaps) + last, InWord) == Followed(words)
    decreases |words|
  {
    if words == [] {
      assert "" + last == last == last + "";
      GapIsSqueezed(last, "", InWord);
    } else {
      var rest := Spaced(words[1..], gaps[1..]) + last;
      OthersApart(words, gaps);
      LaterWords(words[1..], gaps[1..], last);
      GapIsSqueezed(gaps[0], words[0] + rest, InWord);
      WordIsKept(words[0], rest, Between);
      assert Spaced(words, gaps) + last == gaps[0] + (words[0] + rest);
    }
  }

  lemma {:induction false} FollowedIsJoin(words: seq<string>)
    requires words != []
    ensures words[0] + Followed(words[1..]) == Join(words, " ")
    decreases |words|
  {
    if |words| > 1 {
      FollowedIsJoin(words[1..]);
      var rest := words[1..][0] + Followed(words[1..][1..]);
      assert words[0] + (" " + rest) == words[0] + " " + rest;
    }
  }

  /** Collapsing keeps the words and puts one space between two of them. */
  lemma {:induction false} WordsAreKept(words: seq<string>, gaps: seq<string>, last: string)
    requires Apart(words, gaps) && Blank(last)
    ensures CollapseSpace(Spaced(words, gaps) + last) == Join(words, " ")
  {
    if words == [] {
      assert "" + last == last == last + "";
      GapIsSqueezed(last, "", Start);
    } else {
      var rest := Spaced(words[1..], gaps[1..]) + last;
      OthersApart(words, gaps);
      LaterWords(words[1..], gaps[1..], last);
      GapIsSqueezed(gaps[0], words[0] + rest, Start);
      WordIsKept(words[0], rest, Start);
      FollowedIsJoin(words);
      assert Spaced(words, gaps) + last == gaps[0] + (words[0] + rest);
    }
  }

  // One parameter.

  /** A part with a bare colon is a name, before the first one, with its default; one without is positional. */
  lemma NamedIsRead(part: string, before: Items, after: string)
    requires CollapseSpace(part) == ItemsText(before) + ":" + after && Legal(before) && Free(before, ':')
    ensures ParsePart(part) == Some(Named(TrimSpace(ItemsText(before)), TrimSpace(after)))
  {
    var (c, k) := (CollapseSpace(part), |ItemsText(before)|);
    CutIsFirst(before, ':', after);
    assert c == ItemsText(before) + [':'] + after;
    assert c[..k] == ItemsText(before) && c[k + 1..] == after;
  }

  lemma PositionalIsRead(part: string, items: Items)
    requires CollapseSpace(part) == ItemsText(items) != "" && Legal(items) && Free(items, ':')
    ensures ParsePart(part) == Some(Positional(ItemsText(items)))
  {
    NothingIsCut(items, ':');
  }

  lemma {:induction false} BlankSqueezes(s: string)
    ensures Squeeze(s, Start) == "" <==> Blank(s)
    decreases |s|
  {
    if s != "" { BlankSqueezes(s[1..]); }
  }

  lemma {:induction false} BlankIsNoParameter(part: string)
    ensures ParsePart(part) == None <==> Blank(part)
  {
    BlankSqueezes(part);
  }

  lemma {:induction false} BlankPartsDeclareNothing(parts: seq<string>)
    ensures ParseParts(Kept(parts)) == ParseParts(parts)
    decreases |parts|
  {
    if |parts| > 1 {
      KeptFirst(parts);
      BlankPartsDeclareNothing(parts[1..]);
      assert ([parts[0]] + Kept(parts[1..]))[1..] == Kept(parts[1..]);
    } else if |parts| == 1 {
      BlankIsNoParameter(parts[0]);
    }
  }

  /** So a list of legal parts is read part by part. */
  lemma {:induction false} ListIsRead(parts: seq<Items>)
    requires forall i | 0 <= i < |parts| :: Legal(parts[i]) && Free(parts[i], ',')
    ensures Parse(Join(Texts(parts), ",")) == ParseParts(Texts(parts))
  {
    SplitReadsParts(parts);
    BlankPartsDeclareNothing(Texts(parts));
  }
}
