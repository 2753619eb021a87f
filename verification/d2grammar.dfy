/** D2 source by grammar rather than by cursor, and the proof that the bracket skipper decides it. */
module D2Grammar {
  import opened Text
  import opened Lexing

  /** A lexeme, or a bracket group of them. A comment takes its newline with it. */
  datatype Item =
    | Str(body: string)
    | Comment(text: string)
    | Newline
    | Blank(c: char)
    | Plain(c: char)
    | Group(items: Items)

  datatype Items = End | Then(item: Item, rest: Items)

  /** What may stand between quotes: no bare quote, and every backslash paired with a byte. */
  predicate StringBody(t: string) {
    || t == ""
    || (t[0] == '\\' && |t| >= 2 && StringBody(t[2..]))
    || (t[0] != '\\' && t[0] != '"' && StringBody(t[1..]))
  }

  /** Whether the line is still blank after the item. */
  predicate BlankAfter(item: Item, lineBlank: bool) {
    item.Comment? || item.Newline? || (item.Blank? && lineBlank)
  }

  /** The D2 lexical rules. `lineBlank`: only white space comes before on this line. Slashes and
      stars are ordinary, and a hash opens a comment only where the line is blank so far. */
  predicate LegalItem(item: Item, lineBlank: bool) {
    match item
    case Str(body) => StringBody(body)
    case Comment(text) => lineBlank && '\n' !in text
    case Newline => true
    case Blank(c) => c == ' ' || c == '\t' || c == '\r'
    case Plain(c) => c !in {'"', '\n', ' ', '\t', '\r', '[', ']'} && (c == '#' ==> !lineBlank)
    case Group(items) => Legal(items, false)
  }

  predicate Legal(items: Items, lineBlank: bool) {
    match items
    case End => true
    case Then(item, rest) => LegalItem(item, lineBlank) && Legal(rest, BlankAfter(item, lineBlank))
  }

  predicate BlankAfterAll(items: Items, lineBlank: bool) {
    match items
    case End => lineBlank
    case Then(item, rest) => BlankAfterAll(rest, BlankAfter(item, lineBlank))
  }

  function ItemText(item: Item): string {
    match item
    case Str(body) => "\"" + body + "\""
    case Comment(text) => "#" + text + "\n"
    case Newline => "\n"
    case Blank(c) => [c]
    case Plain(c) => [c]
    case Group(items) => "[" + ItemsText(items) + "]"
  }

  function ItemsText(items: Items): string {
    match items
    case End => ""
    case Then(item, rest) => ItemText(item) + ItemsText(rest)
  }

  lemma ReadsQuoted(s: string, k: nat, open: char, t: string, close: char)
    ensures Reads(s, k, [open] + t + [close])
        <==> (k < |s| && s[k] == open && Reads(s, k + 1, t) && k + 1 + |t| < |s| && s[k + 1 + |t|] == close)
  {
    ReadsBoth(s, k, [open] + t, [close]);
    ReadsBoth(s, k, [open], t);
    ReadsOne(s, k, open);
    ReadsOne(s, k + 1 + |t|, close);
  }

  /** A legal body is passed over whole. */
  lemma {:induction false} StringIsPassed(s: string, k: nat, t: string)
    requires StringBody(t) && Reads(s, k, t) && k + |t| < |s| && s[k + |t|] == '"'
    ensures StringEnd(s, k) == k + |t| + 1
    decreases |t|
  {
    if t != "" {
      if t[0] == '\\' {
        assert t[1..][1..] == t[2..];
        StringIsPassed(s, k + 2, t[2..]);
      } else {
        StringIsPassed(s, k + 1, t[1..]);
      }
    }
  }

  lemma {:induction false} CommentIsPassed(s: string, k: nat, t: string)
    requires '\n' !in t && Reads(s, k, t) && k + |t| < |s| && s[k + |t|] == '\n'
    ensures FindChar(s, '\n', k) == k + |t|
    decreases |t|
  {
    if t != "" {
      CommentIsPassed(s, k + 1, t[1..]);
    }
  }

  lemma ByteIsPassed(s: string, k: nat, item: Item, depth: nat, lineBlank: bool)
    requires item.Newline? || item.Blank? || item.Plain?
    requires LegalItem(item, lineBlank) && Reads(s, k, ItemText(item)) && depth > 0
    ensures BracketEnd(s, k, depth, lineBlank)
         == BracketEnd(s, k + |ItemText(item)|, depth, BlankAfter(item, lineBlank))
  {
    match item
    case Newline => ReadsOne(s, k, '\n');
    case Blank(c) => ReadsOne(s, k, c);
    case Plain(c) => ReadsOne(s, k, c);
  }

  /** A legal item is passed over whole, at any nesting. */
  lemma {:induction false} ItemIsPassed(s: string, k: nat, item: Item, depth: nat, lineBlank: bool)
    requires LegalItem(item, lineBlank) && Reads(s, k, ItemText(item)) && depth > 0
    ensures BracketEnd(s, k, depth, lineBlank)
         == BracketEnd(s, k + |ItemText(item)|, depth, BlankAfter(item, lineBlank))
    decreases item
  {
    match item
    case Str(body) =>
      ReadsQuoted(s, k, '"', body, '"');
      StringIsPassed(s, k + 1, body);
    case Comment(text) =>
      ReadsQuoted(s, k, '#', text, '\n');
      CommentIsPassed(s, k + 1, text);
      assert BracketEnd(s, k + 1 + |text|, depth, true) == BracketEnd(s, k + 2 + |text|, depth, true);
    case Group(inner) =>
      ReadsQuoted(s, k, '[', ItemsText(inner), ']');
      ItemsArePassed(s, k + 1, inner, depth + 1, false);
    case _ => ByteIsPassed(s, k, item, depth, lineBlank);
  }

  lemma {:induction false} ItemsArePassed(s: string, k: nat, items: Items, depth: nat, lineBlank: bool)
    requires Legal(items, lineBlank) && Reads(s, k, ItemsText(items)) && depth > 0
    ensures BracketEnd(s, k, depth, lineBlank)
         == BracketEnd(s, k + |ItemsText(items)|, depth, BlankAfterAll(items, lineBlank))
    decreases items
  {
    match items
    case End =>
    case Then(item, rest) =>
      ReadsBoth(s, k, ItemText(item), ItemsText(rest));
      ItemIsPassed(s, k, item, depth, lineBlank);
      ItemsArePassed(s, k + |ItemText(item)|, rest, depth, BlankAfter(item, lineBlank));
  }

  /** A scanned string that ends inside the text is a legal one. */
  lemma {:induction false} PassedString(s: string, k: nat) returns (body: string)
    requires k <= |s| && StringEnd(s, k) < |s|
    ensures StringBody(body) && Reads(s, k, body)
    ensures k + |body| + 1 == StringEnd(s, k) && s[k + |body|] == '"'
    decreases |s| - k
  {
    if s[k] == '"' {
      body := "";
    } else {
      var n := if s[k] == '\\' then 2 else 1;
      var tail := PassedString(s, k + n);
      body := s[k..k + n] + tail;
      ReadsSlice(s, k, k + n);
      ReadsBoth(s, k, s[k..k + n], tail);
      assert body[n..] == tail;
    }
  }

  lemma {:induction false} NoNewlineBefore(s: string, k: nat)
    requires k <= |s|
    ensures '\n' !in s[k..FindChar(s, '\n', k)]
    decreases |s| - k
  {
    var e := FindChar(s, '\n', k);
    if k < |s| && s[k] != '\n' {
      NoNewlineBefore(s, k + 1);
      assert s[k..e] == [s[k]] + s[k + 1..e];
    }
  }

  /** The text of regions that close one after the other, innermost first. */
  function LevelsText(levels: seq<Items>): string {
    if levels == [] then "" else ItemsText(levels[0]) + "]" + LevelsText(levels[1..])
  }

  predicate LegalLevels(levels: seq<Items>, lineBlank: bool) {
    levels == [] || (Legal(levels[0], lineBlank) && LegalLevels(levels[1..], false))
  }

  lemma InFront(a: string, b: string, c: string, d: string)
    ensures a + b + c + d == a + (b + c + d)
  {}

  /** Puts one more item in front of the innermost region. */
  lemma {:induction false} Extend(s: string, k: nat, item: Item, levels: seq<Items>, lineBlank: bool)
      returns (more: seq<Items>)
    requires levels != [] && LegalItem(item, lineBlank) && LegalLevels(levels, BlankAfter(item, lineBlank))
    requires Reads(s, k, ItemText(item)) && Reads(s, k + |ItemText(item)|, LevelsText(levels))
    ensures |more| == |levels| && LegalLevels(more, lineBlank) && Reads(s, k, LevelsText(more))
    ensures |LevelsText(more)| == |ItemText(item)| + |LevelsText(levels)|
  {
    more := [Then(item, levels[0])] + levels[1..];
    assert more[1..] == levels[1..];
    InFront(ItemText(item), ItemsText(levels[0]), "]", LevelsText(levels[1..]));
    ReadsBoth(s, k, ItemText(item), LevelsText(levels));
  }

  /** A bracket opens a group: the two innermost regions become one. */
  lemma Enclose(s: string, k: nat, inner: seq<Items>, lineBlank: bool) returns (levels: seq<Items>)
    requires |inner| >= 2 && k < |s| && s[k] == '['
    requires LegalLevels(inner, false) && Reads(s, k + 1, LevelsText(inner))
    ensures |levels| == |inner| - 1 && LegalLevels(levels, lineBlank) && Reads(s, k, LevelsText(levels))
    ensures |LevelsText(levels)| == 1 + |LevelsText(inner)|
  {
    var t := ItemsText(inner[0]);
    assert Reads(s, k, "[" + t + "]") && Reads(s, k + 2 + |t|, LevelsText(inner[1..])) by {
      ReadsBoth(s, k + 1, t + "]", LevelsText(inner[1..]));
      ReadsBoth(s, k + 1, t, "]");
      ReadsOne(s, k + 1 + |t|, ']');
      ReadsQuoted(s, k, '[', t, ']');
    }
    levels := Extend(s, k, Group(inner[0]), inner[1..], lineBlank);
  }

  /** A bracket closes the innermost region. */
  lemma Shut(s: string, k: nat, outer: seq<Items>, lineBlank: bool) returns (levels: seq<Items>)
    requires k < |s| && s[k] == ']' && LegalLevels(outer, false) && Reads(s, k + 1, LevelsText(outer))
    ensures |levels| == 1 + |outer| && LegalLevels(levels, lineBlank) && Reads(s, k, LevelsText(levels))
    ensures |LevelsText(levels)| == 1 + |LevelsText(outer)|
  {
    levels := [End] + outer;
    assert levels[1..] == outer;
    assert LevelsText(levels) == "]" + LevelsText(outer);
    ReadsBoth(s, k, "]", LevelsText(outer));
  }

  /** Short of a bracket, an accepted text starts with a legal item. */
  lemma {:induction false} FirstItem(s: string, k: nat, depth: nat, lineBlank: bool) returns (item: Item)
    requires k < |s| && s[k] != '[' && s[k] != ']' && depth > 0 && BracketEnd(s, k, depth, lineBlank).Some?
    ensures LegalItem(item, lineBlank) && Reads(s, k, ItemText(item)) && |ItemText(item)| > 0
    ensures BracketEnd(s, k, depth, lineBlank)
         == BracketEnd(s, k + |ItemText(item)|, depth, BlankAfter(item, lineBlank))
  {
    var c := s[k];
    if c == '"' {
      var body := PassedString(s, k + 1);
      ReadsQuoted(s, k, '"', body, '"');
      item := Str(body);
    } else if c == '#' && lineBlank {
      var e := FindChar(s, '\n', k);
      NoNewlineBefore(s, k);
      assert BracketEnd(s, e, depth, true) == BracketEnd(s, e + 1, depth, true);
      ReadsSlice(s, k + 1, e);
      ReadsQuoted(s, k, '#', s[k + 1..e], '\n');
      item := Comment(s[k + 1..e]);
    } else {
      ReadsOne(s, k, c);
      item := if c == '\n' then Newline else if c == ' ' || c == '\t' || c == '\r' then Blank(c) else Plain(c);
    }
  }

  /** Whatever the skipper accepts is legal text: `depth` regions, each closed by its bracket. */
  lemma {:induction false} AcceptedIsLegal(s: string, k: nat, depth: nat, lineBlank: bool) returns (levels: seq<Items>)
    requires k <= |s| && depth > 0 && BracketEnd(s, k, depth, lineBlank).Some?
    ensures |levels| == depth && LegalLevels(levels, lineBlank) && Reads(s, k, LevelsText(levels))
    ensures BracketEnd(s, k, depth, lineBlank) == Some(k + |LevelsText(levels)|)
    decreases |s| - k
  {
    if s[k] == '[' {
      var inner := AcceptedIsLegal(s, k + 1, depth + 1, false);
      levels := Enclose(s, k, inner, lineBlank);
    } else if s[k] == ']' {
      var outer := [];
      if depth > 1 {
        outer := AcceptedIsLegal(s, k + 1, depth - 1, false);
      }
      levels := Shut(s, k, outer, lineBlank);
    } else {
      var item := FirstItem(s, k, depth, lineBlank);
      var inner := AcceptedIsLegal(s, k + |ItemText(item)|, depth, BlankAfter(item, lineBlank));
      levels := Extend(s, k, item, inner, lineBlank);
    }
  }

  /** A balanced diagram block of these items starts at k. */
  predicate DiagramAt(s: string, k: nat, items: Items) {
    Legal(items, true) && Reads(s, k, "[" + ItemsText(items) + "]")
  }

  lemma DiagramIsSkipped(s: string, k: nat, items: Items)
    requires DiagramAt(s, k, items)
    ensures BracketEnd(s, k + 1, 1, true) == Some(k + |ItemsText(items)| + 2)
  {
    ReadsQuoted(s, k, '[', ItemsText(items), ']');
    ItemsArePassed(s, k + 1, items, 1, true);
  }

  lemma SkippedIsDiagram(s: string, k: nat) returns (items: Items)
    requires k < |s| && s[k] == '[' && BracketEnd(s, k + 1, 1, true).Some?
    ensures DiagramAt(s, k, items)
  {
    var levels := AcceptedIsLegal(s, k + 1, 1, true);
    items := levels[0];
    var t := ItemsText(items);
    assert LevelsText(levels) == t + "]" by { assert levels[1..] == []; }
    ReadsBoth(s, k + 1, t, "]");
    ReadsOne(s, k + 1 + |t|, ']');
    ReadsQuoted(s, k, '[', t, ']');
  }

  /** skipD2Brackets accepts exactly the balanced blocks of the grammar, and it stops where the
      block does; a block can therefore be read in only one extent. */
  lemma {:induction false} SkipperDecidesGrammar(s: string, k: nat)
    requires k < |s| && s[k] == '['
    ensures BracketEnd(s, k + 1, 1, true).Some? <==> exists items :: DiagramAt(s, k, items)
    ensures forall items :: DiagramAt(s, k, items) ==>
              BracketEnd(s, k + 1, 1, true) == Some(k + |ItemsText(items)| + 2)
  {
    forall items | DiagramAt(s, k, items)
      ensures BracketEnd(s, k + 1, 1, true) == Some(k + |ItemsText(items)| + 2)
    {
      DiagramIsSkipped(s, k, items);
    }
    if BracketEnd(s, k + 1, 1, true).Some? {
      var items := SkippedIsDiagram(s, k);
    }
  }
}
