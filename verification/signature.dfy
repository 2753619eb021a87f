/** Template parameter lists: the nesting-aware splitter, the parser and the printer of exports.go. */
module Signature {
  import opened Text

  /** Where a lexer stands: how deep in brackets, and whether inside a string or after its backslash. */
  datatype Quote = Outside | Inside | Escaped

  datatype Lex = Lex(depth: int, quote: Quote)

  const TOP := Lex(0, Outside)

  function Step(l: Lex, c: char): Lex {
    var depth := l.depth;
    match l.quote
    case Escaped => Lex(depth, Inside)
    case Inside => if c == '\\' then Lex(depth, Escaped) else if c == '"' then Lex(depth, Outside) else l
    case Outside =>
      if c == '"' then Lex(depth, Inside)
      else if c == '(' || c == '[' || c == '{' then Lex(depth + 1, Outside)
      else if c == ')' || c == ']' || c == '}' then Lex(depth - 1, Outside)
      else l
  }

  predicate Blank(s: string) {
    s == "" || (IsSpace(s[0]) && Blank(s[1..]))
  }

  /** The parts of s from k on, the current one having begun at start: cut at the commas that stand
      outside every bracket and string; a blank last part is dropped. */
  function SplitFrom(s: string, start: nat, k: nat, l: Lex): seq<string>
    requires start <= k <= |s|
    decreases |s| - k
  {
    if k == |s| then if Blank(s[start..]) then [] else [s[start..]]
    else if s[k] == ',' && l == TOP then [s[start..k]] + SplitFrom(s, k + 1, k + 1, l)
    else SplitFrom(s, start, k + 1, Step(l, s[k]))
  }

  function Split(s: string): seq<string> {
    SplitFrom(s, 0, 0, TOP)
  }

  /** The first sep at or after k that stands outside every bracket and string. */
  function CutFrom(s: string, sep: char, k: nat, l: Lex): (r: Option<nat>)
    requires k <= |s|
    ensures r.Some? ==> k <= r.value < |s| && s[r.value] == sep
    decreases |s| - k
  {
    if k == |s| then None
    else if s[k] == sep && l == TOP then Some(k)
    else CutFrom(s, sep, k + 1, Step(l, s[k]))
  }

  /** The inner loop that all three scanners share: from just past an opening quote to the closing
      one, or past the end of an unterminated string. */
  function QuoteEnd(s: string, k: nat): (e: nat)
    requires k <= |s| + 1
    ensures k <= e <= |s| + 1
    ensures e < |s| ==> s[e] == '"'
    decreases |s| + 1 - k
  {
    if k >= |s| then k
    else if s[k] == '\\' then QuoteEnd(s, k + 2)
    else if s[k] == '"' then k
    else QuoteEnd(s, k + 1)
  }

  method SkipQuoted(s: string, k: nat) returns (i: nat)
    requires k <= |s|
    ensures i == QuoteEnd(s, k)
  {
    i := k;
    while i < |s|
      invariant k <= i <= |s| + 1 && QuoteEnd(s, i) == QuoteEnd(s, k)
      decreases |s| + 1 - i
    {
      if s[i] == '\\' {
        i := i + 2;
      } else if s[i] == '"' {
        return;
      } else {
        i := i + 1;
      }
    }
  }

  /** Nothing is cut inside a string. */
  lemma {:induction false} StringIsNotSplit(s: string, start: nat, k: nat, depth: int)
    requires start <= k <= |s|
    ensures var e := QuoteEnd(s, k);
            SplitFrom(s, start, k, Lex(depth, Inside)) ==
            if e < |s| then SplitFrom(s, start, e, Lex(depth, Inside))
            else if Blank(s[start..]) then [] else [s[start..]]
    decreases |s| - k
  {
    if k < |s| && s[k] == '\\' {
      if k + 1 < |s| {
        StringIsNotSplit(s, start, k + 2, depth);
        assert SplitFrom(s, start, k + 1, Lex(depth, Escaped)) == SplitFrom(s, start, k + 2, Lex(depth, Inside));
      }
    } else if k < |s| && s[k] != '"' {
      StringIsNotSplit(s, start, k + 1, depth);
    }
  }

  lemma {:induction false} StringIsNotCut(s: string, sep: char, k: nat, depth: int)
    requires k <= |s| && sep != '"' && sep != '\\'
    ensures var e := QuoteEnd(s, k);
            CutFrom(s, sep, k, Lex(depth, Inside)) == if e < |s| then CutFrom(s, sep, e, Lex(depth, Inside)) else None
    decreases |s| - k
  {
    if k < |s| && s[k] == '\\' {
      if k + 1 < |s| {
        StringIsNotCut(s, sep, k + 2, depth);
        assert CutFrom(s, sep, k + 1, Lex(depth, Escaped)) == CutFrom(s, sep, k + 2, Lex(depth, Inside));
      }
    } else if k < |s| && s[k] != '"' {
      StringIsNotCut(s, sep, k + 1, depth);
    }
  }

  lemma {:induction false} BlankIsSkipped(s: string, k: nat)
    requires k <= |s|
    ensures Blank(s[k..]) <==> SkipSpace(s, k) == |s|
    decreases |s| - k
  {
    if k < |s| {
      assert s[k..][1..] == s[k + 1..];
      BlankIsSkipped(s, k + 1);
    }
  }

  lemma {:induction false} KeepsStart(s: string, a: nat, k: nat)
    requires a < k <= |s| && !IsSpace(s[a])
    ensures BackSpace(s, a, k) > a
    decreases k
  {
    if a + 1 < k {
      KeepsStart(s, a, k - 1);
    }
  }

  lemma BlankIsTrimmedAway(s: string)
    ensures Blank(s) <==> TrimSpace(s) == ""
  {
    BlankIsSkipped(s, 0);
    assert s[0..] == s;
    var a := SkipSpace(s, 0);
    if a < |s| {
      KeepsStart(s, a, |s|);
    }
  }

  /** splitTopLevel. */
  method SplitTopLevel(s: string) returns (parts: seq<string>)
    ensures parts == Split(s)
  {
    parts := [];
    var depth, start, i := 0, 0, 0;
    while i < |s|
      invariant start <= |s| && start <= i <= |s| + 2
      invariant i <= |s| ==> parts + SplitFrom(s, start, i, Lex(depth, Outside)) == Split(s)
      invariant i > |s| ==> parts + (if Blank(s[start..]) then [] else [s[start..]]) == Split(s)
      decreases |s| + 2 - i
    {
      if s[i] == '"' {
        StringIsNotSplit(s, start, i + 1, depth);
        i := SkipQuoted(s, i + 1);
      } else if s[i] == '(' || s[i] == '[' || s[i] == '{' {
        depth := depth + 1;
      } else if s[i] == ')' || s[i] == ']' || s[i] == '}' {
        depth := depth - 1;
      } else if s[i] == ',' {
        if depth == 0 {
          parts := parts + [s[start..i]];
          start := i + 1;
        }
      }
      i := i + 1;
    }
    var rest := TrimSpace(s[start..]);
    BlankIsTrimmedAway(s[start..]);
    if rest != "" {
      parts := parts + [s[start..]];
    }
  }

  /** cutTopLevel: where it cuts, or nothing. */
  method CutTopLevel(s: string, sep: char) returns (before: string, after: string, found: bool)
    requires sep !in {'"', '\\', '(', ')', '[', ']', '{', '}'}
    ensures match CutFrom(s, sep, 0, TOP)
            case Some(k) => found && before == s[..k] && after == s[k + 1..]
            case None => !found && before == s && after == ""
  {
    var depth, i := 0, 0;
    while i < |s|
      invariant i <= |s| + 2
      invariant i <= |s| ==> CutFrom(s, sep, i, Lex(depth, Outside)) == CutFrom(s, sep, 0, TOP)
      invariant i > |s| ==> CutFrom(s, sep, 0, TOP) == None
      decreases |s| + 2 - i
    {
      if s[i] == '"' {
        StringIsNotCut(s, sep, i + 1, depth);
        i := SkipQuoted(s, i + 1);
      } else if s[i] == '(' || s[i] == '[' || s[i] == '{' {
        depth := depth + 1;
      } else if s[i] == ')' || s[i] == ']' || s[i] == '}' {
        depth := depth - 1;
      } else if s[i] == sep {
        if depth == 0 {
          return s[..i], s[i + 1..], true;
        }
      }
      i := i + 1;
    }
    return s, "", false;
  }

  /** Where a space would go: before the first word, inside a word, or between words. */
  datatype Gap = Start | InWord | Between

  /** The words of s, with one space between two of them. */
  function Squeeze(s: string, g: Gap): string {
    if s == "" then ""
    else if IsSpace(s[0]) then Squeeze(s[1..], if g.Start? then Start else Between)
    else (if g.Between? then " " else "") + ([s[0]] + Squeeze(s[1..], InWord))
  }

  /** collapseSpace: strings.Join(strings.Fields(s), " "). */
  function CollapseSpace(s: string): string {
    Squeeze(s, Start)
  }

  /** A parameter: positional, or a name with its default. */
  datatype Param = Positional(name: string) | Named(name: string, default: string)

  /** What one part of a list declares, if it is not blank. */
  function ParsePart(part: string): Option<Param> {
    var c := CollapseSpace(part);
    if c == "" then None else
    match CutFrom(c, ':', 0, TOP)
    case Some(k) => Some(Named(TrimSpace(c[..k]), TrimSpace(c[k + 1..])))
    case None => Some(Positional(c))
  }

  function ParseParts(parts: seq<string>): seq<Param> {
    if parts == [] then [] else
    match ParsePart(parts[0])
    case None => ParseParts(parts[1..])
    case Some(p) => [p] + ParseParts(parts[1..])
  }

  function Parse(s: string): seq<Param> {
    ParseParts(Split(s))
  }

  lemma ParseStep(out: seq<Param>, parts: seq<string>, i: nat)
    requires i < |parts|
    ensures out + ParseParts(parts[i..]) ==
            match ParsePart(parts[i])
            case None => out + ParseParts(parts[i + 1..])
            case Some(p) => (out + [p]) + ParseParts(parts[i + 1..])
  {
    assert parts[i..][1..] == parts[i + 1..];
  }

  /** parseParams. */
  method ParseParams(params: string) returns (out: seq<Param>)
    ensures out == Parse(params)
  {
    out := [];
    var parts := SplitTopLevel(params);
    var i := 0;
    while i < |parts|
      invariant 0 <= i <= |parts| && out + ParseParts(parts[i..]) == Parse(params)
    {
      ghost var first := ParsePart(parts[i]);
      ParseStep(out, parts, i);
      var part := CollapseSpace(parts[i]);
      i := i + 1;
      if part == "" {
        assert first == None;
        continue;
      }
      var name, def, ok := CutTopLevel(part, ':');
      if ok {
        assert first == Some(Named(TrimSpace(name), TrimSpace(def)));
        out := out + [Named(TrimSpace(name), TrimSpace(def))];
        continue;
      }
      assert first == Some(Positional(part));
      out := out + [Positional(part)];
    }
  }

  function PrintParam(p: Param): string {
    match p
    case Positional(name) => name
    case Named(name, default) => name + ": " + default
  }

  /** strings.Join(parts, sep). */
  function Join(parts: seq<string>, sep: string): string {
    if parts == [] then "" else if |parts| == 1 then parts[0] else parts[0] + sep + Join(parts[1..], sep)
  }

  function PrintAll(params: seq<Param>): (r: seq<string>)
    ensures |r| == |params|
  {
    if params == [] then [] else [PrintParam(params[0])] + PrintAll(params[1..])
  }

  function Print(params: seq<Param>): string {
    Join(PrintAll(params), ", ")
  }

  /** signatureOf. */
  method SignatureOf(params: seq<Param>) returns (s: string)
    ensures s == Print(params)
  {
    var parts := [];
    var i := 0;
    while i < |params|
      invariant 0 <= i <= |params| && parts + PrintAll(params[i..]) == PrintAll(params)
    {
      assert params[i..][1..] == params[i + 1..];
      var p := params[i];
      i := i + 1;
      if p.Positional? {
        parts := parts + [p.name];
        continue;
      }
      parts := parts + [p.name + ": " + p.default];
    }
    assert parts == PrintAll(params);
    return Join(parts, ", ");
  }

  /** isDocumentTemplate: the list ends in a positional body. */
  predicate IsDocumentTemplate(params: string) {
    var parts := Split(params);
    parts != [] && TrimSpace(parts[|parts| - 1]) == "body"
  }
}
