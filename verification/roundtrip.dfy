/** A listed signature reads back as the parameters it was printed from. */
module RoundTrip {
  import opened Text
  import opened Signature

  /** The lexer after s. */
  function Lexed(s: string, l: Lex): Lex {
    if s == "" then l else Lexed(s[1..], Step(l, s[0]))
  }

  /** No sep of s stands outside every bracket and string. */
  predicate Quiet(s: string, l: Lex, sep: char) {
    s == "" || (!(s[0] == sep && l == TOP) && Quiet(s[1..], Step(l, s[0]), sep))
  }

  lemma {:induction false} LexedBoth(a: string, b: string, l: Lex, sep: char)
    ensures Lexed(a + b, l) == Lexed(b, Lexed(a, l))
    ensures Quiet(a + b, l, sep) <==> Quiet(a, l, sep) && Quiet(b, Lexed(a, l), sep)
  {
    if a == "" {
      assert a + b == b;
    } else {
      assert (a + b)[1..] == a[1..] + b;
      LexedBoth(a[1..], b, Step(l, a[0]), sep);
    }
  }

  /** The lexer of a text and that of its squeezed form: a pending space is yet to be read. */
  predicate Tracks(raw: Lex, out: Lex, g: Gap) {
    match g
    case Start => raw == out && raw.quote == Outside
    case InWord => raw == out
    case Between => raw == Step(out, ' ')
  }

  /** White space means nothing to the lexer, so squeezing it changes neither nesting nor separators. */
  lemma {:induction false} SqueezeKeepsShape(s: string, g: Gap, raw: Lex, out: Lex, sep: char)
    requires Tracks(raw, out, g) && !IsSpace(sep)
    ensures Quiet(s, raw, sep) <==> Quiet(Squeeze(s, g), out, sep)
    ensures Lexed(s, raw) == TOP ==> Lexed(Squeeze(s, g), out) == TOP
  {
    if s != "" && IsSpace(s[0]) {
      SqueezeKeepsShape(s[1..], if g.Start? then Start else Between, Step(raw, s[0]), out, sep);
    } else if s != "" {
      var tail := Squeeze(s[1..], InWord);
      var rest := [s[0]] + tail;
      var here := if g.Between? then Step(out, ' ') else out;
      assert here == raw;
      SqueezeKeepsShape(s[1..], InWord, Step(raw, s[0]), Step(raw, s[0]), sep);
      assert rest[1..] == tail;
      if g.Between? {
        assert (" " + rest)[1..] == rest;
      } else {
        assert "" + rest == rest;
      }
    }
  }

  lemma CollapseKeepsShape(s: string, sep: char)
    requires !IsSpace(sep)
    ensures Quiet(s, TOP, sep) <==> Quiet(CollapseSpace(s), TOP, sep)
    ensures Lexed(s, TOP) == TOP ==> Lexed(CollapseSpace(s), TOP) == TOP
  {
    SqueezeKeepsShape(s, Start, TOP, TOP, sep);
  }

  /** Only single spaces, none at either end. */
  predicate SingleSpaced(s: string) {
    s == "" || ((IsSpace(s[0]) ==> s[0] == ' ' && (|s| > 1 ==> !IsSpace(s[1]))) && SingleSpaced(s[1..]))
  }

  predicate Tidy(s: string) {
    SingleSpaced(s) && (s != "" ==> !IsSpace(s[0]) && !IsSpace(s[|s| - 1]))
  }

  /** Single-spaced, closed by a word, and opened as the gap before it wants. */
  predicate TidyAfter(t: string, g: Gap) {
    && SingleSpaced(t)
    && (t != "" ==> !IsSpace(t[|t| - 1]))
    && (t != "" && g.Start? ==> !IsSpace(t[0]))
    && (t != "" && g.Between? ==> |t| > 1 && t[0] == ' ' && !IsSpace(t[1]))
  }

  lemma WordIsTidy(c: char, tail: string)
    requires !IsSpace(c) && TidyAfter(tail, InWord)
    ensures var r := [c] + tail; SingleSpaced(r) && !IsSpace(r[0]) && !IsSpace(r[|r| - 1])
  {
    var r := [c] + tail;
    assert r[1..] == tail;
    if tail != "" { assert r[|r| - 1] == tail[|tail| - 1]; }
  }

  lemma SpaceBeforeWord(r: string)
    requires r != "" && SingleSpaced(r) && !IsSpace(r[0]) && !IsSpace(r[|r| - 1])
    ensures var t := " " + r; SingleSpaced(t) && t[0] == ' ' && t[1] == r[0] && !IsSpace(t[|t| - 1])
  {
    var t := " " + r;
    assert t[1..] == r && t[|t| - 1] == r[|r| - 1];
  }

  lemma WordAfterGap(c: char, tail: string, g: Gap)
    requires !IsSpace(c) && TidyAfter(tail, InWord)
    ensures TidyAfter((if g.Between? then " " else "") + ([c] + tail), g)
  {
    var rest := [c] + tail;
    WordIsTidy(c, tail);
    if g.Between? {
      SpaceBeforeWord(rest);
    } else {
      assert "" + rest == rest;
    }
  }

  lemma {:induction false} SqueezeIsTidy(s: string, g: Gap)
    ensures TidyAfter(Squeeze(s, g), g)
  {
    if s != "" && IsSpace(s[0]) {
      SqueezeIsTidy(s[1..], if g.Start? then Start else Between);
    } else if s != "" {
      SqueezeIsTidy(s[1..], InWord);
      WordAfterGap(s[0], Squeeze(s[1..], InWord), g);
    }
  }

  lemma {:induction false} SingleAt(s: string, i: nat)
    requires SingleSpaced(s) && i < |s| && IsSpace(s[i])
    ensures s[i] == ' ' && (i + 1 < |s| ==> !IsSpace(s[i + 1]))
  {
    if i > 0 {
      SingleAt(s[1..], i - 1);
    }
  }

  lemma {:induction false} SingleParts(s: string, k: nat)
    requires SingleSpaced(s) && k <= |s|
    ensures SingleSpaced(s[..k]) && SingleSpaced(s[k..])
  {
    if k > 0 {
      SingleParts(s[1..], k - 1);
      assert s[..k][1..] == s[1..][..k - 1];
      assert s[1..][k - 1..] == s[k..];
    } else {
      assert s[0..] == s;
    }
  }

  function DropLast(s: string): string {
    if s != "" && IsSpace(s[|s| - 1]) then s[..|s| - 1] else s
  }

  function DropFirst(s: string): string {
    if s != "" && IsSpace(s[0]) then s[1..] else s
  }

  lemma DropLastCons(c: char, w: string)
    requires w != "" || !IsSpace(c)
    ensures DropLast([c] + w) == [c] + DropLast(w)
  {
    var s := [c] + w;
    if w != "" { assert s[|s| - 1] == w[|w| - 1]; }
  }

  lemma {:induction false} SqueezeSingle(s: string)
    requires SingleSpaced(s)
    ensures Squeeze(s, InWord) == DropLast(s)
  {
    if s == "" {
    } else if IsSpace(s[0]) {
      if |s| > 1 {
        var w := s[1..];
        SqueezeSingle(w[1..]);
        assert Squeeze(w, Between) == " " + ([w[0]] + DropLast(w[1..]));
        DropLastCons(w[0], w[1..]);
        DropLastCons(' ', w);
        assert [w[0]] + w[1..] == w && [' '] + w == s;
      }
    } else {
      SqueezeSingle(s[1..]);
      var rest := [s[0]] + DropLast(s[1..]);
      DropLastCons(s[0], s[1..]);
      assert "" + rest == rest && [s[0]] + s[1..] == s;
    }
  }

  lemma {:induction false} CollapseSingle(s: string)
    requires SingleSpaced(s)
    ensures CollapseSpace(s) == DropLast(DropFirst(s))
  {
    var w := DropFirst(s);
    if w != "" {
      assert !IsSpace(w[0]);
      assert SingleSpaced(w[1..]);
      SqueezeSingle(w[1..]);
      DropLastCons(w[0], w[1..]);
      assert [w[0]] + w[1..] == w && "" + ([w[0]] + DropLast(w[1..])) == DropLast(w);
      assert Squeeze(s, Start) == Squeeze(w, Start);
    } else if s != "" {
      assert s[1..] == "" && Squeeze(s, Start) == Squeeze("", Start);
    }
  }

  lemma SkipsOne(s: string)
    requires SingleSpaced(s)
    ensures SkipSpace(s, 0) == if s != "" && IsSpace(s[0]) then 1 else 0
  {
    if s != "" && IsSpace(s[0]) {
      SingleAt(s, 0);
      assert SkipSpace(s, 1) == 1;
    }
  }

  lemma BacksOne(s: string, a: nat)
    requires SingleSpaced(s) && a <= |s|
    ensures BackSpace(s, a, |s|) == if a < |s| && IsSpace(s[|s| - 1]) then |s| - 1 else |s|
  {
    var n := |s|;
    if a < n && IsSpace(s[n - 1]) {
      if n >= 2 && IsSpace(s[n - 2]) {
        SingleAt(s, n - 2);
      }
      assert BackSpace(s, a, n - 1) == n - 1;
    }
  }

  lemma TrimDrops(s: string)
    requires SingleSpaced(s)
    ensures TrimSpace(s) == DropLast(DropFirst(s))
  {
    var a := SkipSpace(s, 0);
    SkipsOne(s);
    BacksOne(s, a);
    var n, w := |s|, s[a..];
    if a < n && IsSpace(s[n - 1]) {
      assert w[..|w| - 1] == s[a..n - 1];
    }
  }

  /** On single-spaced text, trimming and collapsing are the same. */
  lemma TrimSingle(s: string)
    requires SingleSpaced(s)
    ensures TrimSpace(s) == CollapseSpace(s)
  {
    TrimDrops(s);
    CollapseSingle(s);
  }

  lemma TidyIsCollapsed(s: string)
    requires Tidy(s)
    ensures CollapseSpace(s) == s
  {
    CollapseSingle(s);
  }

  lemma CollapseLead(s: string)
    ensures CollapseSpace(" " + s) == CollapseSpace(s)
  {
    assert (" " + s)[1..] == s;
  }

  // What cutting at a separator finds.

  lemma {:induction false} CutIs(s: string, sep: char, k: nat, l: Lex)
    requires k <= |s|
    ensures var r := CutFrom(s, sep, k, l);
            && (r.None? ==> Quiet(s[k..], l, sep))
            && (r.Some? ==> Quiet(s[k..r.value], l, sep) && Lexed(s[k..r.value], l) == TOP)
    decreases |s| - k
  {
    var r := CutFrom(s, sep, k, l);
    if k < |s| && !(s[k] == sep && l == TOP) {
      CutIs(s, sep, k + 1, Step(l, s[k]));
      if r.None? {
        assert s[k..][1..] == s[k + 1..];
      } else {
        assert s[k..r.value][1..] == s[k + 1..r.value];
      }
    }
  }

  lemma {:induction false} CutFinds(s: string, sep: char, k: nat, l: Lex, a: string)
    requires Reads(s, k, a) && Quiet(a, l, sep)
    ensures CutFrom(s, sep, k, l) == CutFrom(s, sep, k + |a|, Lexed(a, l))
    decreases |a|
  {
    if a != "" {
      CutFinds(s, sep, k + 1, Step(l, s[k]), a[1..]);
    }
  }

  lemma CutAt(a: string, sep: char, b: string)
    requires Quiet(a, TOP, sep) && Lexed(a, TOP) == TOP
    ensures CutFrom(a + [sep] + b, sep, 0, TOP) == Some(|a|)
    ensures (a + [sep] + b)[..|a|] == a && (a + [sep] + b)[|a| + 1..] == b
  {
    var s := a + [sep] + b;
    ReadsSlice(s, 0, |a|);
    assert s[0..|a|] == a;
    CutFinds(s, sep, 0, TOP, a);
  }

  // One part and its printed form.

  /** Print closes what the part closed, shows no separator that the part did not, and is not blank. */
  ghost predicate PrintsLike(q: string, part: string) {
    && !Blank(q)
    && (Quiet(part, TOP, ',') ==> Quiet(q, TOP, ','))
    && (Lexed(part, TOP) == TOP ==> Lexed(q, TOP) == TOP)
  }

  lemma {:induction false} BlankCollapses(s: string, g: Gap)
    ensures Blank(s) <==> Squeeze(s, g) == ""
  {
    if s != "" && IsSpace(s[0]) {
      BlankCollapses(s[1..], if g.Start? then Start else Between);
    }
  }

  lemma SingleTrims(s: string)
    requires SingleSpaced(s)
    ensures TrimSpace(s) == CollapseSpace(s) && Tidy(TrimSpace(s))
  {
    TrimSingle(s);
    SqueezeIsTidy(s, Start);
  }

  lemma OneColon()
    ensures Lexed([':'], TOP) == TOP && Quiet([':'], TOP, ',')
    ensures Lexed(": ", TOP) == TOP && Quiet(": ", TOP, ',')
  {
    assert [':'][1..] == "" && ": "[1..] == " " && " "[1..] == "";
  }

  lemma ShapeOfPieces(a: string, b: string)
    requires Lexed(a, TOP) == TOP
    ensures var c := a + ([':'] + b);
            && (Quiet(c, TOP, ',') ==> Quiet(a, TOP, ',') && Quiet(b, TOP, ','))
            && (Lexed(c, TOP) == TOP ==> Lexed(b, TOP) == TOP)
  {
    LexedBoth(a, [':'] + b, TOP, ',');
    LexedBoth([':'], b, TOP, ',');
    OneColon();
  }

  /** The pieces that a cut of tidy text leaves, once trimmed. */
  lemma CutPieces(c: string, k: nat)
    requires Tidy(c) && CutFrom(c, ':', 0, TOP) == Some(k)
    ensures var name, def := TrimSpace(c[..k]), TrimSpace(c[k + 1..]);
            && Tidy(name) && Tidy(def) && Quiet(name, TOP, ':') && Lexed(name, TOP) == TOP
            && (Quiet(c, TOP, ',') ==> Quiet(name, TOP, ',') && Quiet(def, TOP, ','))
            && (Lexed(c, TOP) == TOP ==> Lexed(def, TOP) == TOP)
  {
    var a, b := c[..k], c[k + 1..];
    assert c[0..k] == a && c[k..][1..] == b && c == a + ([':'] + b);
    CutIs(c, ':', 0, TOP);
    SingleParts(c, k);
    SingleParts(c[k..], 1);
    SingleTrims(a);
    SingleTrims(b);
    CollapseKeepsShape(a, ':');
    CollapseKeepsShape(a, ',');
    CollapseKeepsShape(b, ',');
    ShapeOfPieces(a, b);
  }

  lemma {:induction false} SingleBoth(a: string, b: string)
    requires SingleSpaced(a) && SingleSpaced(b) && (a == "" || b == "" || !IsSpace(a[|a| - 1]) || !IsSpace(b[0]))
    ensures SingleSpaced(a + b)
  {
    if a == "" {
      assert a + b == b;
    } else {
      assert (a + b)[1..] == a[1..] + b;
      SingleBoth(a[1..], b);
    }
  }

  lemma NamedIsSingle(name: string, def: string)
    requires Tidy(name) && Tidy(def)
    ensures var q := name + ": " + def;
            SingleSpaced(q) && !IsSpace(q[0]) && (IsSpace(q[|q| - 1]) <==> def == "")
  {
    assert ": "[1..] == " " && " "[1..] == "";
    SingleBoth(name, ": ");
    SingleBoth(name + ": ", def);
  }

  lemma NamedCollapses(name: string, def: string)
    requires Tidy(name) && Tidy(def)
    ensures CollapseSpace(name + ": " + def) == name + [':'] + (if def == "" then "" else " " + def)
  {
    var q := name + ": " + def;
    var c := name + [':'] + (if def == "" then "" else " " + def);
    NamedIsSingle(name, def);
    CollapseSingle(q);
    if def == "" {
      assert q[..|q| - 1] == c;
    } else {
      assert q == c;
    }
  }

  lemma SingleLead(def: string)
    requires Tidy(def)
    ensures SingleSpaced(" " + def)
  {
    assert (" " + def)[1..] == def;
  }

  lemma RestIsTrimmed(def: string)
    requires Tidy(def)
    ensures TrimSpace(if def == "" then "" else " " + def) == def
  {
    if def != "" {
      SingleLead(def);
      TrimSingle(" " + def);
      CollapseLead(def);
      TidyIsCollapsed(def);
    }
  }

  /** A printed default parses back: name, colon and default are found where they were put. */
  lemma NamedReadsBack(name: string, def: string)
    requires Tidy(name) && Tidy(def) && Quiet(name, TOP, ':') && Lexed(name, TOP) == TOP
    ensures ParsePart(name + ": " + def) == Some(Named(name, def))
  {
    var rest := if def == "" then "" else " " + def;
    NamedCollapses(name, def);
    CutAt(name, ':', rest);
    TidyIsCollapsed(name);
    TrimSingle(name);
    RestIsTrimmed(def);
  }

  /** What one part declares is what its printed form declares, with or without a space before it. */
  lemma NamedShape(name: string, def: string)
    requires Lexed(name, TOP) == TOP
    ensures Lexed(name + ": " + def, TOP) == Lexed(def, TOP)
    ensures Quiet(name, TOP, ',') && Quiet(def, TOP, ',') ==> Quiet(name + ": " + def, TOP, ',')
  {
    OneColon();
    LexedBoth(name, ": ", TOP, ',');
    LexedBoth(name + ": ", def, TOP, ',');
  }

  lemma PartReadsBack(part: string)
    requires ParsePart(part).Some?
    ensures var p := ParsePart(part).value;
            var q := PrintParam(p);
            && ParsePart(q) == Some(p) && ParsePart(" " + q) == Some(p) && PrintsLike(q, part)
  {
    var p := ParsePart(part).value;
    var q := PrintParam(p);
    var c := CollapseSpace(part);
    SqueezeIsTidy(part, Start);
    CollapseKeepsShape(part, ',');
    if p.Positional? {
      TidyIsCollapsed(c);
    } else {
      var k := CutFrom(c, ':', 0, TOP).value;
      CutPieces(c, k);
      NamedReadsBack(p.name, p.default);
      NamedShape(p.name, p.default);
    }
    CollapseLead(q);
    BlankCollapses(q, Start);
  }

  // The whole list.

  /** No part shows a comma to cut at, and each but the last is closed. */
  predicate Good(parts: seq<string>) {
    forall i | 0 <= i < |parts| :: Quiet(parts[i], TOP, ',') && (i < |parts| - 1 ==> Lexed(parts[i], TOP) == TOP)
  }

  lemma OneMore(s: string, start: nat, k: nat)
    requires start <= k < |s| && Quiet(s[start..k], TOP, ',') && !(s[k] == ',' && Lexed(s[start..k], TOP) == TOP)
    ensures Quiet(s[start..k + 1], TOP, ',')
    ensures Lexed(s[start..k + 1], TOP) == Step(Lexed(s[start..k], TOP), s[k])
  {
    assert s[start..k + 1] == s[start..k] + [s[k]];
    LexedBoth(s[start..k], [s[k]], TOP, ',');
    assert [s[k]][1..] == "";
  }

  lemma {:induction false} SplitIsGood(s: string, start: nat, k: nat, l: Lex)
    requires start <= k <= |s| && Quiet(s[start..k], TOP, ',') && Lexed(s[start..k], TOP) == l
    ensures Good(SplitFrom(s, start, k, l))
    decreases |s| - k
  {
    if k == |s| {
      assert s[start..] == s[start..k];
    } else if s[k] == ',' && l == TOP {
      assert s[k + 1..k + 1] == "";
      SplitIsGood(s, k + 1, k + 1, l);
      assert SplitFrom(s, start, k, l) == [s[start..k]] + SplitFrom(s, k + 1, k + 1, l);
    } else {
      OneMore(s, start, k);
      SplitIsGood(s, start, k + 1, Step(l, s[k]));
      assert SplitFrom(s, start, k, l) == SplitFrom(s, start, k + 1, Step(l, s[k]));
    }
  }

  lemma {:induction false} SplitPasses(s: string, start: nat, k: nat, l: Lex, a: string)
    requires start <= k && Reads(s, k, a) && Quiet(a, l, ',')
    ensures SplitFrom(s, start, k, l) == SplitFrom(s, start, k + |a|, Lexed(a, l))
    decreases |a|
  {
    if a != "" {
      SplitPasses(s, start, k + 1, Step(l, s[k]), a[1..]);
    }
  }

  /** The printed parts with the space that Join puts before all but the first. */
  function LeadAll(lead: string, qs: seq<string>): (r: seq<string>)
    ensures |r| == |qs|
    decreases |qs|
  {
    if qs == [] then [] else [lead + qs[0]] + LeadAll(" ", qs[1..])
  }

  predicate NoneBlank(qs: seq<string>) {
    qs == [] || (!Blank(qs[0]) && NoneBlank(qs[1..]))
  }

  lemma LeadIsQuiet(lead: string, q: string)
    requires (lead == "" || lead == " ") && Quiet(q, TOP, ',')
    ensures Quiet(lead + q, TOP, ',') && Lexed(lead + q, TOP) == Lexed(q, TOP)
    ensures !Blank(q) ==> !Blank(lead + q)
  {
    if lead == "" {
      assert lead + q == q;
    } else {
      assert (lead + q)[1..] == q;
    }
  }

  /** Up to the comma after a quiet part. */
  lemma FirstPartIsCut(s: string, k: nat, a: string, rest: string)
    requires k <= |s| && s[k..] == a + (", " + rest) && Quiet(a, TOP, ',') && Lexed(a, TOP) == TOP
    ensures var e := k + |a|;
            && e < |s| && s[e + 1..] == " " + rest
            && SplitFrom(s, k, k, TOP) == [a] + SplitFrom(s, e + 1, e + 1, TOP)
  {
    var e := k + |a|;
    assert s[k..e] == a && s[e] == ',' && s[e + 1..] == " " + rest by {
      assert s[k..][..|a|] == a && s[k..][|a|] == ',' && s[k..][|a| + 1..] == " " + rest;
    }
    ReadsSlice(s, k, e);
    SplitPasses(s, k, k, TOP, a);
  }

  /** Splitting a printed list finds the printed parts. */
  lemma Joined(lead: string, q: string, rest: string)
    ensures lead + (q + ", " + rest) == lead + q + (", " + rest)
  {}

  lemma {:induction false} LastIsFound(s: string, k: nat, a: string)
    requires k <= |s| && s[k..] == a && Quiet(a, TOP, ',') && !Blank(a)
    ensures SplitFrom(s, k, k, TOP) == [a]
  {
    ReadsSlice(s, k, |s|);
    assert s[k..|s|] == a;
    SplitPasses(s, k, k, TOP, a);
  }

  lemma {:induction false} SplitFindsParts(s: string, k: nat, lead: string, qs: seq<string>)
    requires k <= |s| && s[k..] == lead + Join(qs, ", ") && qs != []
    requires (lead == "" || lead == " ") && Good(qs) && NoneBlank(qs)
    ensures SplitFrom(s, k, k, TOP) == LeadAll(lead, qs)
    decreases |qs|
  {
    var a := lead + qs[0];
    LeadIsQuiet(lead, qs[0]);
    if |qs| == 1 {
      LastIsFound(s, k, a);
    } else {
      var rest := Join(qs[1..], ", ");
      Joined(lead, qs[0], rest);
      FirstPartIsCut(s, k, a, rest);
      SplitFindsParts(s, k + |a| + 1, " ", qs[1..]);
    }
  }

  /** The printed forms of what the parts declare are good parts themselves, and read back. */
  lemma {:induction false} PrintsAreGood(parts: seq<string>)
    requires Good(parts)
    ensures var qs := PrintAll(ParseParts(parts));
            Good(qs) && NoneBlank(qs) && |qs| <= |parts|
  {
    if parts != [] {
      PrintsAreGood(parts[1..]);
      var ps := ParseParts(parts[1..]);
      if ParsePart(parts[0]).Some? {
        PartReadsBack(parts[0]);
        var p := ParsePart(parts[0]).value;
        assert ([p] + ps)[1..] == ps;
        assert PrintAll([p] + ps) == [PrintParam(p)] + PrintAll(ps);
        assert ([PrintParam(p)] + PrintAll(ps))[1..] == PrintAll(ps);
      }
    }
  }

  lemma {:induction false} PrintsReadBack(parts: seq<string>, lead: string)
    requires lead == "" || lead == " "
    ensures ParseParts(LeadAll(lead, PrintAll(ParseParts(parts)))) == ParseParts(parts)
    decreases |parts|
  {
    if parts != [] {
      if ParsePart(parts[0]).Some? {
        PrintsReadBack(parts[1..], " ");
        PartReadsBack(parts[0]);
        var p, ps := ParsePart(parts[0]).value, ParseParts(parts[1..]);
        var q, qs := PrintParam(p), PrintAll(ps);
        assert ([p] + ps)[1..] == ps && ([q] + qs)[1..] == qs;
        assert lead == "" ==> lead + q == q;
        var x := LeadAll(" ", qs);
        assert ([lead + q] + x)[1..] == x;
        assert LeadAll(lead, [q] + qs) == [lead + q] + x;
      } else {
        PrintsReadBack(parts[1..], lead);
      }
    }
  }

  lemma PrintedSplit(s: string)
    requires Parse(s) != []
    ensures Split(Print(Parse(s))) == LeadAll("", PrintAll(Parse(s)))
  {
    assert s[0..0] == "";
    SplitIsGood(s, 0, 0, TOP);
    PrintsAreGood(Split(s));
    var t := Print(Parse(s));
    assert t[0..] == "" + t;
    SplitFindsParts(t, 0, "", PrintAll(Parse(s)));
  }

  /** The round trip, on every string: nested, unbalanced or unterminated alike. */
  lemma ParsePrintParse(s: string)
    ensures Parse(Print(Parse(s))) == Parse(s)
  {
    if Parse(s) == [] {
      assert Split("") == [];
    } else {
      PrintedSplit(s);
      PrintsReadBack(Split(s), "");
    }
  }

  lemma {:induction false} LastIsNotBlank(s: string)
    requires s != "" && !IsSpace(s[|s| - 1])
    ensures !Blank(s)
  {
    if |s| > 1 {
      LastIsNotBlank(s[1..]);
    }
  }

  lemma SpaceShows(s: string)
    requires s != "" && IsSpace(s[0]) && !IsSpace(s[|s| - 1])
    ensures var t := Squeeze(s, InWord); t != "" && IsSpace(t[0])
  {
    SqueezeIsTidy(s[1..], Between);
    BlankCollapses(s[1..], Between);
    LastIsNotBlank(s[1..]);
  }

  lemma {:induction false} NoSpaceKept(s: string)
    requires forall x :: 0 <= x < |Squeeze(s, InWord)| ==> !IsSpace(Squeeze(s, InWord)[x])
    requires s != "" ==> !IsSpace(s[|s| - 1])
    ensures Squeeze(s, InWord) == s
  {
    if s != "" {
      if IsSpace(s[0]) {
        SpaceShows(s);
        assert false;
      }
      var rest := [s[0]] + Squeeze(s[1..], InWord);
      assert Squeeze(s, InWord) == "" + rest == rest;
      assert forall x :: 0 <= x < |Squeeze(s[1..], InWord)| ==> Squeeze(s[1..], InWord)[x] == rest[x + 1];
      NoSpaceKept(s[1..]);
    }
  }

  lemma {:induction false} SkipThenSqueeze(s: string, k: nat)
    requires k <= |s|
    ensures Squeeze(s[k..], Start) == Squeeze(s[SkipSpace(s, k)..], Start)
    decreases |s| - k
  {
    if k < |s| && IsSpace(s[k]) {
      assert s[k..][1..] == s[k + 1..];
      SkipThenSqueeze(s, k + 1);
    }
  }

  lemma {:induction false} TrailingIsDropped(a: string, b: string, g: Gap)
    requires Blank(b)
    ensures Squeeze(a + b, g) == Squeeze(a, g)
  {
    if a == "" {
      assert a + b == b;
      BlankCollapses(b, g);
    } else {
      assert (a + b)[1..] == a[1..] + b;
      TrailingIsDropped(a[1..], b, if !IsSpace(a[0]) then InWord else if g.Start? then Start else Between);
    }
  }

  lemma {:induction false} BackIsBlank(s: string, a: nat, k: nat)
    requires a <= k <= |s| && Blank(s[k..])
    ensures Blank(s[BackSpace(s, a, k)..])
    decreases k
  {
    if a < k && IsSpace(s[k - 1]) {
      assert s[k - 1..][1..] == s[k..];
      BackIsBlank(s, a, k - 1);
    }
  }

  /** Collapsing does not see what trimming takes off. */
  lemma CollapseTrimmed(s: string)
    ensures CollapseSpace(TrimSpace(s)) == CollapseSpace(s)
  {
    var a := SkipSpace(s, 0);
    var b := BackSpace(s, a, |s|);
    assert s[0..] == s;
    SkipThenSqueeze(s, 0);
    BackIsBlank(s, a, |s|);
    assert s[a..] == s[a..b] + s[b..];
    TrailingIsDropped(s[a..b], s[b..], Start);
  }

  lemma TrimmedEnds(x: string)
    ensures var t := TrimSpace(x); t != "" ==> !IsSpace(t[0]) && !IsSpace(t[|t| - 1])
  {}

  lemma UnspacedWord(t: string)
    requires t != "" && !IsSpace(t[0]) && !IsSpace(t[|t| - 1])
    requires var c := CollapseSpace(t); forall i :: 0 <= i < |c| ==> !IsSpace(c[i])
    ensures t == CollapseSpace(t)
  {
    var tail := Squeeze(t[1..], InWord);
    var c := [t[0]] + tail;
    assert CollapseSpace(t) == "" + c == c;
    forall i | 0 <= i < |tail| ensures !IsSpace(tail[i]) {
      assert tail[i] == CollapseSpace(t)[i + 1];
    }
    NoSpaceKept(t[1..]);
    assert t == [t[0]] + t[1..];
  }

  /** Without a space left in it, collapsed text is trimmed text. */
  lemma {:induction false} CollapsedWord(x: string)
    requires var c := CollapseSpace(x); c != "" && forall i :: 0 <= i < |c| ==> !IsSpace(c[i])
    ensures TrimSpace(x) == CollapseSpace(x)
  {
    CollapseTrimmed(x);
    TrimmedEnds(x);
    var t := TrimSpace(x);
    assert t != "" || CollapseSpace(t) == "";
    UnspacedWord(t);
  }

  lemma BodyIsTidy()
    ensures Tidy("body")
  {
    assert "body"[1..] == "ody" && "ody"[1..] == "dy" && "dy"[1..] == "y" && "y"[1..] == "";
  }

  /** A part trims to `body` exactly when it declares the positional body. */
  lemma BodyPart(x: string)
    ensures TrimSpace(x) == "body" <==> ParsePart(x) == Some(Positional("body"))
  {
    var body := "body";
    if CollapseSpace(x) == body {
      CollapsedWord(x);
    }
    if TrimSpace(x) == body {
      CollapseTrimmed(x);
      BodyIsTidy();
      TidyIsCollapsed(body);
    }
    assert CutFrom("body", ':', 0, TOP) == None;
  }

  lemma {:induction false} NothingDeclared(parts: seq<string>)
    requires |parts| == 0
    ensures ParseParts(parts) == []
  {}

  lemma {:induction false} OneDeclares(parts: seq<string>)
    requires |parts| == 1 && ParsePart(parts[0]).Some?
    ensures ParseParts(parts) == [ParsePart(parts[0]).value]
  {
    NothingDeclared(parts[1..]);
  }

  lemma {:induction false} FirstDeclares(parts: seq<string>)
    requires |parts| > 1
    ensures ParseParts(parts) == ParseParts(parts[1..])
            || exists p :: ParseParts(parts) == [p] + ParseParts(parts[1..])
  {}

  lemma {:induction false} LastDeclares(parts: seq<string>)
    requires parts != [] && ParsePart(parts[|parts| - 1]).Some?
    ensures var ps := ParseParts(parts); ps != [] && ps[|ps| - 1] == ParsePart(parts[|parts| - 1]).value
  {
    if |parts| > 1 {
      LastDeclares(parts[1..]);
      FirstDeclares(parts);
    } else {
      OneDeclares(parts);
    }
  }

  lemma TemplateOfParts(parts: seq<string>)
    requires parts != []
    ensures TrimSpace(parts[|parts| - 1]) == "body" <==>
            var ps := ParseParts(parts);
            ParsePart(parts[|parts| - 1]).Some? && ps != [] && ps[|ps| - 1] == Positional("body")
  {
    BodyPart(parts[|parts| - 1]);
    if ParsePart(parts[|parts| - 1]).Some? {
      LastDeclares(parts);
    }
  }

  /** The template test on a list as written: the last parameter is the positional body, and no
      blank part follows it. */
  lemma TemplateAsWritten(s: string)
    ensures IsDocumentTemplate(s) <==>
            var ps, parts := Parse(s), Split(s);
            && ps != [] && ps[|ps| - 1] == Positional("body")
            && ParsePart(parts[|parts| - 1]).Some?
  {
    var parts := Split(s);
    if parts != [] {
      TemplateOfParts(parts);
    }
  }

  lemma DoubledComma(s: string)
    requires |s| == 6 && s[..4] == "body" && s[4] == ',' && s[5] == ','
    ensures Split(s) == ["body", ""]
  {
    assert SplitFrom(s, 6, 6, TOP) == [];
    assert s[5..5] == "" && s[0..4] == "body";
    var tail := SplitFrom(s, 5, 5, TOP);
    assert tail == [""] + [];
    assert SplitFrom(s, 0, 4, TOP) == [s[0..4]] + tail;
    ReadsSlice(s, 0, 4);
    assert "body"[1..] == "ody" && "ody"[1..] == "dy" && "dy"[1..] == "y" && "y"[1..] == "";
    SplitPasses(s, 0, 0, TOP, "body");
  }

  lemma BodyParses()
    ensures ParseParts(["body", ""]) == [Positional("body")]
  {
    BodyIsTidy();
    TidyIsCollapsed("body");
    assert CutFrom("body", ':', 0, TOP) == None;
    assert ParsePart("body") == Some(Positional("body")) && ParsePart("") == None;
    assert ["body", ""][1..] == [""] && [""][1..] == [];
  }

  /** So a doubled trailing comma hides a body from the test that the parser still sees. */
  lemma DoubledCommaHidesBody()
    ensures Parse("body,,") == [Positional("body")] && !IsDocumentTemplate("body,,")
  {
    DoubledComma("body,,");
    BodyParses();
  }

  lemma {:induction false} AllDeclare(parts: seq<string>)
    ensures |ParseParts(parts)| <= |parts|
    ensures parts != [] && |ParseParts(parts)| == |parts| ==> ParsePart(parts[|parts| - 1]).Some?
  {
    if parts != [] {
      AllDeclare(parts[1..]);
    }
  }

  /** On a printed signature the template test is exact. */
  lemma TemplateAsPrinted(s: string)
    ensures IsDocumentTemplate(Print(Parse(s))) <==>
            var ps := Parse(s); ps != [] && ps[|ps| - 1] == Positional("body")
  {
    var t := Print(Parse(s));
    ParsePrintParse(s);
    if Parse(s) == [] {
      assert Split("") == [];
    } else {
      PrintedSplit(s);
      TemplateOfParts(Split(t));
      AllDeclare(Split(t));
    }
  }
}
