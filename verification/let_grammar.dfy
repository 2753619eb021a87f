/** Declarations by grammar: the parameters that are read are those between the parentheses. */
module LetGrammar {
  import opened Text
  import opened Signature
  import opened Declarations
  import opened ParamGrammar
  import D2Grammar

  /** Only parentheses group here; the other brackets are bytes. */
  predicate RoundItem(item: Item) {
    match item
    case Plain(c) => c != '"' && c != '(' && c != ')'
    case Str(body) => D2Grammar.StringBody(body)
    case Group(open, items, close) => open == '(' && close == ')' && Round(items)
  }

  predicate Round(items: Items) {
    match items
    case End => true
    case Then(item, rest) => RoundItem(item) && Round(rest)
  }

  lemma {:induction false} BodyIsPassed(s: string, k: nat, body: string, depth: int)
    requires Reads(s, k, body) && D2Grammar.StringBody(body)
    ensures CloseFrom(s, k, Lex(depth, Inside)) == CloseFrom(s, k + |body|, Lex(depth, Inside))
    decreases |body|
  {
    if body != "" {
      if body[0] == '\\' {
        assert body[1..][1..] == body[2..];
        assert CloseFrom(s, k + 1, Lex(depth, Escaped)) == CloseFrom(s, k + 2, Lex(depth, Inside));
        BodyIsPassed(s, k + 2, body[2..], depth);
      } else {
        BodyIsPassed(s, k + 1, body[1..], depth);
      }
    }
  }

  lemma {:induction false} QuotedIsPassed(s: string, k: nat, body: string, depth: nat)
    requires Reads(s, k, "\"" + (body + "\"")) && D2Grammar.StringBody(body)
    ensures var l := Lex(depth, Outside); CloseFrom(s, k, l) == CloseFrom(s, k + |body| + 2, l)
  {
    ReadsGroup(s, k, '"', body, '"');
    BodyIsPassed(s, k + 1, body, depth);
  }

  lemma {:induction false} GroupIsPassed(s: string, k: nat, e: nat, depth: nat)
    requires k < e < |s| && s[k] == '(' && s[e] == ')' && depth > 0
    requires CloseFrom(s, k + 1, Lex(depth + 1, Outside)) == CloseFrom(s, e, Lex(depth + 1, Outside))
    ensures CloseFrom(s, k, Lex(depth, Outside)) == CloseFrom(s, e + 1, Lex(depth, Outside))
  {}

  lemma {:induction false} ItemIsPassed(s: string, k: nat, item: Item, depth: nat)
    requires Reads(s, k, ItemText(item)) && RoundItem(item) && depth > 0
    ensures var l := Lex(depth, Outside); CloseFrom(s, k, l) == CloseFrom(s, k + |ItemText(item)|, l)
    decreases item
  {
    match item
    case Plain(c) => ReadsOne(s, k, c);
    case Str(body) => QuotedIsPassed(s, k, body, depth);
    case Group(_, items, _) =>
      ReadsGroup(s, k, '(', ItemsText(items), ')');
      ItemsArePassed(s, k + 1, items, depth + 1);
      GroupIsPassed(s, k, k + 1 + |ItemsText(items)|, depth);
  }

  lemma {:induction false} ItemsArePassed(s: string, k: nat, items: Items, depth: nat)
    requires Reads(s, k, ItemsText(items)) && Round(items) && depth > 0
    ensures var l := Lex(depth, Outside); CloseFrom(s, k, l) == CloseFrom(s, k + |ItemsText(items)|, l)
    decreases items
  {
    match items
    case End =>
    case Then(item, rest) =>
      ReadsBoth(s, k, ItemText(item), ItemsText(rest));
      ItemIsPassed(s, k, item, depth);
      ItemsArePassed(s, k + |ItemText(item)|, rest, depth);
  }

  /** A group is read up to its own close, whatever groups and strings are in it; and one that the text ends in
      is read as none. */
  lemma {:induction false} GroupIsRead(s: string, open: nat, items: Items)
    requires Round(items)
    ensures var text := ItemsText(items);
            && (Reads(s, open, "(" + (text + ")")) ==> CloseFrom(s, open, TOP) == Some(open + 1 + |text|))
            && (Reads(s, open, "(" + text) && open + 1 + |text| == |s| ==> CloseFrom(s, open, TOP) == None)
  {
    var text := ItemsText(items);
    if Reads(s, open, "(" + (text + ")")) {
      ReadsGroup(s, open, '(', text, ')');
      ItemsArePassed(s, open + 1, items, 1);
    }
    if Reads(s, open, "(" + text) && open + 1 + |text| == |s| {
      ReadsBoth(s, open, "(", text);
      ReadsOne(s, open, '(');
      ItemsArePassed(s, open + 1, items, 1);
    }
  }

  lemma {:induction false} LetReads(s: string, k: nat)
    requires Reads(s, k, "#let ")
    ensures LetAt(s, k)
  {
    assert "#let "[1..] == "let " && Reads(s, k + 1, "let ");
    assert "let "[1..] == "et " && Reads(s, k + 2, "et ");
    assert "et "[1..] == "t " && Reads(s, k + 3, "t ");
    assert "t "[1..] == " " && Reads(s, k + 4, " ");
  }

  /** A declaration that is written out stands in the text, with its name and its parameters. */
  lemma {:induction false} WrittenStands(s: string, at: nat, name: string, params: Items, text: string)
    requires Round(params) && text == ItemsText(params)
    requires Reads(s, at, "#let ") && Reads(s, at + 5, name) && Reads(s, at + 5 + |name|, "(" + (text + ")"))
    requires name != "" && name[0] != '_' && forall i | 0 <= i < |name| :: IsIdentChar(name[i])
    ensures StandsIn(s, Declaration(at, name, text))
  {
    var open := at + 5 + |name|;
    LetReads(s, at);
    SliceIs(s, at + 5, name);
    ReadsGroup(s, open, '(', text, ')');
    SliceIs(s, open + 1, text);
    GroupIsRead(s, open, params);
    CloseExactly(s, open, open + 1 + |text|);
  }
}
