/** The import line that Preprocess adds means nothing to the scanner, wherever a line may begin. */
module ImportLine {
  import opened Text
  import opened Lexing
  import opened ScanMachine
  import opened Preprocessing
  import opened Silence
  import opened Rescan

  /** The places of the line's quotes and of its end, when it starts at p. */
  datatype Marks = Marks(p: nat, open: nat, slash: nat, close: nat, end: nat)

  function MarksOf(p: nat, word: string, host: string, pkg: string, name: string): Marks {
    var open := p + 1 + |word|;
    var slash := open + 2 + |host|;
    var close := slash + 1 + |pkg|;
    Marks(p, open, slash, close, close + 2 + |name|)
  }

  predicate PlainWord(p: string) { forall i | 0 <= i < |p| :: PlainChar(p[i]) }

  /** What the line is made of: plain words, of which the first and the third begin with a name. */
  predicate Wording(word: string, host: string, pkg: string, name: string) {
    && PlainWord(word) && PlainWord(host) && PlainWord(pkg) && PlainWord(name)
    && word != "" && IsIdentChar(word[0]) && word[0] != 'd' && pkg != "" && IsIdentChar(pkg[0])
  }

  /** Plain bytes from a to b, and a byte that ends them. */
  ghost predicate WordTo(t: string, a: nat, b: nat) {
    a <= b < |t| && (forall i | a <= i < b :: PlainChar(t[i])) && !IsIdentChar(t[b]) && t[b] != '(' && t[b] != '['
  }

  /** The line stands in t at these marks. */
  ghost predicate Stands(t: string, m: Marks) {
    && m.p + 1 < m.open && m.open + 2 <= m.slash && m.slash < m.close && m.close + 2 <= m.end <= |t|
    && t[m.p] == '#' && IsIdentChar(t[m.p + 1]) && t[m.p + 1] != 'd' && WordTo(t, m.p + 1, m.open)
    && t[m.open] == '"' && t[m.open + 1] == '@' && WordTo(t, m.open + 2, m.slash)
    && t[m.slash] == '/' && IsIdentChar(t[m.slash + 1]) && WordTo(t, m.slash + 1, m.close)
    && t[m.close] == '"' && WordTo(t, m.close + 1, m.end - 1) && t[m.end - 1] == '\n'
  }

  lemma {:induction false} ReadsPlain(t: string, k: nat, p: string)
    requires Reads(t, k, p) && PlainWord(p)
    ensures forall i | k <= i < k + |p| :: PlainChar(t[i])
    ensures p != "" ==> t[k] == p[0]
    decreases |p|
  {
    if p != "" { ReadsPlain(t, k + 1, p[1..]); }
  }

  /** The wording of the line read at p. */
  lemma PartsAreRead(t: string, p: nat, word: string, host: string, pkg: string, name: string)
    requires Wording(word, host, pkg, name) && Reads(t, p, Line(word, host, pkg, name))
    ensures var m := MarksOf(p, word, host, pkg, name); m.end == p + |Line(word, host, pkg, name)| && Stands(t, m)
  {
    var m := MarksOf(p, word, host, pkg, name);
    var (tail, rest) := (name + "\n", pkg + ("\"" + (name + "\n")));
    ReadsBoth(t, p, "#", word + ("\"@" + (host + ("/" + rest))));
    ReadsOne(t, p, '#');
    ReadsBoth(t, p + 1, word, "\"@" + (host + ("/" + rest)));
    ReadsBoth(t, m.open, "\"@", host + ("/" + rest));
    assert "\"@"[1..] == "@";
    ReadsOne(t, m.open + 1, '@');
    ReadsBoth(t, m.open + 2, host, "/" + rest);
    ReadsBoth(t, m.slash, "/", rest);
    ReadsOne(t, m.slash, '/');
    ReadsBoth(t, m.slash + 1, pkg, "\"" + tail);
    ReadsBoth(t, m.close, "\"", tail);
    ReadsOne(t, m.close, '"');
    ReadsBoth(t, m.close + 1, name, "\n");
    ReadsOne(t, m.end - 1, '\n');
    ReadsPlain(t, m.p + 1, word);
    ReadsPlain(t, m.open + 2, host);
    ReadsPlain(t, m.slash + 1, pkg);
    ReadsPlain(t, m.close + 1, name);
  }

  lemma LineIsWorded()
    ensures Wording(IMPORT, HOST, BASED, NAME)
  {}

  lemma WordedLineStands(t: string, p: nat, word: string, host: string, pkg: string, name: string, line: string)
      returns (m: Marks)
    requires Wording(word, host, pkg, name) && line == Line(word, host, pkg, name) && Reads(t, p, line)
    ensures Stands(t, m) && m.p == p && m.end == p + |line|
  {
    PartsAreRead(t, p, word, host, pkg, name);
    m := MarksOf(p, word, host, pkg, name);
  }

  lemma LineStands(t: string, p: nat, line: string) returns (m: Marks)
    requires line == LINE && Reads(t, p, line)
    ensures Stands(t, m) && m.p == p && m.end == p + |line|
  {
    LineIsWorded();
    m := WordedLineStands(t, p, IMPORT, HOST, BASED, NAME, line);
  }

  // Passing over it, in any region.

  lemma {:induction false} WordInMarkup(t: string, a: nat, b: nat, stack: seq<Frame>, cap: nat)
    requires WordTo(t, a, b) && stack != [] && Regions(stack) && !CodeOnTop(stack)
    ensures Run(t, a, stack, cap) == Run(t, b, stack, cap)
    decreases b - a
  {
    if a < b {
      TopIsRegion(stack);
      assert PlainChar(t[a]);
      assert Act(t, a, stack[|stack| - 1], |stack| <= cap) == Advance(a + 1);
      WordInMarkup(t, a + 1, b, stack, cap);
    }
  }

  lemma {:induction false} WordInCode(t: string, a: nat, b: nat, stack: seq<Frame>, cap: nat)
    requires WordTo(t, a, b) && InCode(stack)
    ensures Run(t, a, stack, cap) == Run(t, b, stack, cap)
    decreases b - a
  {
    if a < b {
      assert PlainChar(t[a]);
      if AtIdentStart(t, a) {
        var e := IdentEnd(t, a);
        IdentEndBound(t, a, b);
        assert e < b ==> PlainChar(t[e]);
        WordIsSilent(t, a, stack, cap);
        WordInCode(t, e, b, stack, cap);
      } else {
        PlainCharIsSilent(t, a, stack, cap);
        WordInCode(t, a + 1, b, stack, cap);
      }
    }
  }

  lemma WordIsPassed(t: string, a: nat, b: nat, stack: seq<Frame>, cap: nat)
    requires WordTo(t, a, b) && stack != [] && Regions(stack)
    ensures Run(t, a, stack, cap) == Run(t, b, stack, cap)
  {
    TopIsRegion(stack);
    if CodeOnTop(stack) { WordInCode(t, a, b, stack, cap); } else { WordInMarkup(t, a, b, stack, cap); }
  }

  /** A byte that opens nothing and closes nothing. */
  lemma ByteIsPassed(t: string, k: nat, stack: seq<Frame>, cap: nat)
    requires k < |t| && stack != [] && Regions(stack)
    requires t[k] == '@' || t[k] == '\n' || (t[k] == '/' && k + 1 < |t| && IsIdentChar(t[k + 1]))
    ensures Run(t, k, stack, cap) == Run(t, k + 1, stack, cap)
  {
    TopIsRegion(stack);
    assert Act(t, k, stack[|stack| - 1], |stack| <= cap) == Advance(k + 1);
  }

  lemma StringIsPassed(t: string, k: nat, stack: seq<Frame>, cap: nat)
    requires k < |t| && t[k] == '"' && stack != []
    ensures Run(t, k, stack, cap) == Run(t, StringEnd(t, k + 1), stack, cap)
  {
    assert Act(t, k, stack[|stack| - 1], |stack| <= cap) == Advance(StringEnd(t, k + 1));
  }

  /** The hash, and in markup the name after it. */
  lemma HashIsPassed(t: string, k: nat, b: nat, stack: seq<Frame>, cap: nat)
    requires k < b < |t| && t[k] == '#' && IsIdentChar(t[k + 1]) && t[k + 1] != 'd' && WordTo(t, k + 1, b)
    requires stack != [] && Regions(stack)
    ensures Run(t, k, stack, cap) == Run(t, b, stack, cap)
  {
    TopIsRegion(stack);
    var e := if CodeOnTop(stack) then k + 1 else IdentEnd(t, k + 1);
    IdentEndBound(t, k + 1, b);
    assert e < b ==> PlainChar(t[e]);
    assert Act(t, k, stack[|stack| - 1], |stack| <= cap) == Advance(e);
    WordIsPassed(t, e, b, stack, cap);
  }

  /** No byte from a to b ends a string. */
  lemma {:induction false} NoQuoteBetween(t: string, a: nat, b: nat)
    requires a <= b <= |t| && forall i | a <= i < b :: t[i] != '"' && t[i] != '\\'
    ensures StringEnd(t, a) == StringEnd(t, b)
    decreases b - a
  {
    if a < b { NoQuoteBetween(t, a + 1, b); }
  }

  lemma NoQuotesInside(t: string, m: Marks)
    requires Stands(t, m)
    ensures StringEnd(t, m.p) == m.open + 1 && StringEnd(t, m.open + 1) == m.close + 1
    ensures StringEnd(t, m.close + 1) == StringEnd(t, m.end)
  {
    NoQuoteBetween(t, m.p, m.open);
    NoQuoteBetween(t, m.open + 1, m.close);
    NoQuoteBetween(t, m.close + 1, m.end);
  }

  lemma LastWordIsPassed(t: string, a: nat, b: nat, stack: seq<Frame>, cap: nat)
    requires a < b <= |t| && WordTo(t, a, b - 1) && t[b - 1] == '\n' && stack != [] && Regions(stack)
    ensures Run(t, a, stack, cap) == Run(t, b, stack, cap)
  {
    WordIsPassed(t, a, b - 1, stack, cap);
    ByteIsPassed(t, b - 1, stack, cap);
  }

  /** In any region the line is passed over. */
  lemma LineIsPassed(t: string, m: Marks, stack: seq<Frame>, cap: nat)
    requires Stands(t, m) && stack != [] && Regions(stack)
    ensures Run(t, m.p, stack, cap) == Run(t, m.end, stack, cap)
  {
    HashIsPassed(t, m.p, m.open, stack, cap);
    StringIsPassed(t, m.open, stack, cap);
    assert StringEnd(t, m.open + 1) == m.close + 1 by { NoQuotesInside(t, m); }
    LastWordIsPassed(t, m.close + 1, m.end, stack, cap);
  }

  /** What stands between the quotes. */
  lemma PackageIsPassed(t: string, a: nat, slash: nat, b: nat, stack: seq<Frame>, cap: nat)
    requires a < |t| && t[a] == '@' && WordTo(t, a + 1, slash)
    requires t[slash] == '/' && IsIdentChar(At(t, slash + 1)) && WordTo(t, slash + 1, b)
    requires stack != [] && Regions(stack)
    ensures Run(t, a, stack, cap) == Run(t, b, stack, cap)
  {
    ByteIsPassed(t, a, stack, cap);
    WordIsPassed(t, a + 1, slash, stack, cap);
    ByteIsPassed(t, slash, stack, cap);
    WordIsPassed(t, slash + 1, b, stack, cap);
  }

  /** Inside a string the line's first quote closes it and its second one opens it again; what is
      between them is passed over. */
  lemma LineSplitsString(t: string, m: Marks, stack: seq<Frame>, cap: nat)
    requires Stands(t, m) && stack != [] && Regions(stack)
    ensures Run(t, StringEnd(t, m.p), stack, cap) == Run(t, StringEnd(t, m.end), stack, cap)
  {
    NoQuotesInside(t, m);
    PackageIsPassed(t, m.open + 1, m.slash, m.close, stack, cap);
    StringIsPassed(t, m.close, stack, cap);
  }

  /** It holds no raw text and closes no comment. */
  lemma LineIsOneLine(t: string, m: Marks)
    requires Stands(t, m)
    ensures forall i | m.p <= i < m.end :: t[i] != '`' && t[i] != '*'
  {
    forall i | m.p <= i < m.end ensures t[i] != '`' && t[i] != '*' {
      assert PlainChar(t[i]) || t[i] in {'#', '"', '@', '/', '\n'};
    }
  }
}
