/** Finding `#let name(params)` declarations and the parenthesised group they carry. */
module Declarations {
  import opened Text
  import opened Signature

  /** The signature lexer, but only parentheses count. */
  function ParenStep(l: Lex, c: char): Lex {
    var depth := l.depth;
    if l.quote != Outside || c == '"' then Step(l, c)
    else if c == '(' then Lex(depth + 1, Outside)
    else if c == ')' then Lex(depth - 1, Outside)
    else l
  }

  /** The state after s[a..b]. */
  function Lexed(s: string, a: nat, b: nat, l: Lex): Lex
    requires a <= b <= |s|
    decreases b - a
  {
    if a == b then l else ParenStep(Lexed(s, a, b - 1, l), s[b - 1])
  }

  /** The first parenthesis at or after k that brings the depth to zero. */
  function CloseFrom(s: string, k: nat, l: Lex): (r: Option<nat>)
    requires k <= |s|
    ensures r.Some? ==> k <= r.value < |s| && s[r.value] == ')'
    decreases |s| - k
  {
    if k == |s| then None
    else if s[k] == ')' && l == Lex(1, Outside) then Some(k)
    else CloseFrom(s, k + 1, ParenStep(l, s[k]))
  }

  lemma {:induction false} StringHoldsNoClose(s: string, k: nat, depth: int)
    requires k <= |s|
    ensures var e := QuoteEnd(s, k);
            CloseFrom(s, k, Lex(depth, Inside)) == if e < |s| then CloseFrom(s, e, Lex(depth, Inside)) else None
    decreases |s| - k
  {
    if k < |s| && s[k] == '\\' {
      if k + 1 < |s| {
        StringHoldsNoClose(s, k + 2, depth);
        assert CloseFrom(s, k + 1, Lex(depth, Escaped)) == CloseFrom(s, k + 2, Lex(depth, Inside));
      }
    } else if k < |s| && s[k] != '"' {
      StringHoldsNoClose(s, k + 1, depth);
    }
  }

  /** balancedParens. */
  method BalancedParens(src: string, open: nat) returns (params: string, end: nat, ok: bool)
    requires open < |src| && src[open] == '('
    ensures match CloseFrom(src, open, TOP)
            case Some(e) => ok && open < e && params == src[open + 1..e] && end == e + 1
            case None => !ok
  {
    var depth, i := 0, open;
    while i < |src|
      invariant open <= i <= |src| + 2
      invariant i <= |src| ==> CloseFrom(src, i, Lex(depth, Outside)) == CloseFrom(src, open, TOP)
      invariant i > |src| ==> CloseFrom(src, open, TOP) == None
      decreases |src| + 2 - i
    {
      if src[i] == '"' {
        StringHoldsNoClose(src, i + 1, depth);
        i := SkipQuoted(src, i + 1);
      } else if src[i] == '(' {
        depth := depth + 1;
      } else if src[i] == ')' {
        depth := depth - 1;
        if depth == 0 {
          return src[open + 1..i], i + 1, true;
        }
      }
      i := i + 1;
    }
    return "", 0, false;
  }

  /** s[open..e + 1] is the shortest non-empty text from open on that closes every parenthesis and
      string it opens. */
  ghost predicate ClosesAt(s: string, open: nat, e: nat)
    requires open < |s|
  {
    open <= e < |s| && Lexed(s, open, e + 1, TOP) == TOP && forall k | open < k <= e :: Lexed(s, open, k, TOP) != TOP
  }

  /** Past its opening parenthesis the depth stays positive until the close. */
  ghost predicate OpenTo(s: string, open: nat, k: nat)
    requires open < k <= |s|
  {
    forall p | open < p <= k :: Lexed(s, open, p, TOP).depth > 0
  }

  lemma {:induction false} CloseIsFirst(s: string, open: nat, k: nat)
    requires open < k <= |s| && OpenTo(s, open, k)
    ensures match CloseFrom(s, k, Lexed(s, open, k, TOP))
            case Some(e) => ClosesAt(s, open, e)
            case None => forall p | open < p <= |s| :: Lexed(s, open, p, TOP) != TOP
    decreases |s| - k
  {
    var l := Lexed(s, open, k, TOP);
    if k < |s| {
      assert Lexed(s, open, k + 1, TOP) == ParenStep(l, s[k]);
      if !(s[k] == ')' && l == Lex(1, Outside)) {
        CloseIsFirst(s, open, k + 1);
      }
    } else {
      forall p | open < p <= |s| ensures Lexed(s, open, p, TOP) != TOP {
        assert Lexed(s, open, p, TOP).depth > 0;
      }
    }
  }

  lemma CloseFound(s: string, open: nat)
    requires open < |s| && s[open] == '('
    ensures match CloseFrom(s, open, TOP)
            case Some(c) => ClosesAt(s, open, c) && exists p | open < p <= |s| :: Lexed(s, open, p, TOP) == TOP
            case None => forall p | open < p <= |s| :: Lexed(s, open, p, TOP) != TOP
  {
    assert Lexed(s, open, open, TOP) == TOP && Lexed(s, open, open + 1, TOP) == Lex(1, Outside);
    CloseIsFirst(s, open, open + 1);
    if CloseFrom(s, open, TOP).Some? {
      var p := CloseFrom(s, open, TOP).value + 1;
      assert open < p <= |s| && Lexed(s, open, p, TOP) == TOP;
    }
  }

  lemma NeverCloses(s: string, open: nat, e: nat)
    requires open < |s| && forall p | open < p <= |s| :: Lexed(s, open, p, TOP) != TOP
    ensures !ClosesAt(s, open, e)
  {
    if open <= e < |s| { assert Lexed(s, open, e + 1, TOP) != TOP; }
  }

  lemma OneClose(s: string, open: nat, c: nat, e: nat)
    requires open < |s| && ClosesAt(s, open, c)
    ensures ClosesAt(s, open, e) <==> e == c
  {
    if open <= e < c {
      assert Lexed(s, open, e + 1, TOP) != TOP;
    } else if c < e < |s| {
      assert Lexed(s, open, c + 1, TOP) == TOP;
    }
  }

  /** The close that is found is the end of the shortest closed group; none is found exactly when no
      group that starts here is ever closed. */
  lemma CloseExactly(s: string, open: nat, e: nat)
    requires open < |s| && s[open] == '('
    ensures CloseFrom(s, open, TOP) == Some(e) <==> ClosesAt(s, open, e)
    ensures CloseFrom(s, open, TOP) == None <==> forall p | open < p <= |s| :: Lexed(s, open, p, TOP) != TOP
  {
    CloseFound(s, open);
    match CloseFrom(s, open, TOP)
    case None => NeverCloses(s, open, e);
    case Some(c) => OneClose(s, open, c, e);
  }

  const LET_LENGTH: nat := 5

  /** "#let " stands at k. */
  predicate LetAt(s: string, k: nat) {
    k + LET_LENGTH <= |s| && s[k] == '#' && s[k + 1] == 'l' && s[k + 2] == 'e' && s[k + 3] == 't' && s[k + 4] == ' '
  }

  /** strings.Index of it from k on, or the end of the text. */
  function FindLet(s: string, k: nat): (r: nat)
    requires k <= |s|
    ensures k <= r <= |s|
    ensures r < |s| ==> LetAt(s, r)
    decreases |s| - k
  {
    if k == |s| || LetAt(s, k) then k else FindLet(s, k + 1)
  }

  datatype Declaration = Declaration(at: nat, name: string, params: string)

  /** What comes next: no more, somewhere to go on from, or a declaration with its parentheses. */
  datatype Found = Nothing | Skip(next: nat) | Got(at: nat, open: nat, close: nat)

  function Look(s: string, i: nat): (f: Found)
    ensures f.Skip? ==> i < f.next <= |s| + 1
    ensures f.Got? ==> i <= f.at && f.at + LET_LENGTH < f.open < f.close < |s|
  {
    if i >= |s| || FindLet(s, i) == |s| then Nothing else
    var name := FindLet(s, i) + LET_LENGTH;
    var j := IdentEnd(s, name);
    if j == name || s[name] == '_' || j == |s| || s[j] != '(' then Skip(j + 1) else
    match CloseFrom(s, j, TOP)
    case None => Skip(j + 1)
    case Some(e) => Got(FindLet(s, i), j, e)
  }

  function Carve(s: string, at: nat, open: nat, close: nat): Declaration
    requires at + LET_LENGTH <= open < close <= |s|
  {
    Declaration(at, s[at + LET_LENGTH..open], s[open + 1..close])
  }

  /** What letDeclarations finds from i on. */
  function DeclarationsFrom(s: string, i: nat): seq<Declaration>
    decreases |s| + 1 - i
  {
    match Look(s, i)
    case Nothing => []
    case Skip(next) => DeclarationsFrom(s, next)
    case Got(at, open, close) => [Carve(s, at, open, close)] + DeclarationsFrom(s, close + 1)
  }

  lemma LookStep(out: seq<Declaration>, s: string, i: nat)
    ensures out + DeclarationsFrom(s, i) ==
            match Look(s, i)
            case Nothing => out
            case Skip(next) => out + DeclarationsFrom(s, next)
            case Got(at, open, close) => (out + [Carve(s, at, open, close)]) + DeclarationsFrom(s, close + 1)
  {}

  /** One turn of the loop of letDeclarations. */
  method LookAhead(src: string, i: nat) returns (f: Found)
    requires i < |src|
    ensures f == Look(src, i)
  {
    var at := FindLet(src, i);
    if at == |src| {
      return Nothing;
    }
    var start := at + LET_LENGTH;
    var j := start;
    while j < |src| && IsIdentChar(src[j])
      invariant start <= j <= |src| && IdentEnd(src, j) == IdentEnd(src, start)
    {
      j := j + 1;
    }
    if j == start || src[start] == '_' {
      return Skip(j + 1);
    }
    if j >= |src| || src[j] != '(' {
      return Skip(j + 1);
    }
    var params, end, ok := BalancedParens(src, j);
    if !ok {
      return Skip(j + 1);
    }
    f := Got(at, j, end - 1);
  }

  /** letDeclarations, without the comments above them. */
  method LetDeclarations(src: string) returns (out: seq<Declaration>)
    ensures out == DeclarationsFrom(src, 0)
  {
    out := [];
    var i := 0;
    ghost var all := DeclarationsFrom(src, 0);
    while i < |src|
      invariant out + DeclarationsFrom(src, i) == all
      decreases |src| + 1 - i
    {
      LookStep(out, src, i);
      var f := LookAhead(src, i);
      match f {
        case Nothing =>
          return;
        case Skip(next) =>
          i := next;
        case Got(at, open, close) =>
          out := out + [Carve(src, at, open, close)];
          i := close + 1;
      }
    }
    LookStep(out, src, i);
  }

  function EndOf(d: Declaration): nat { d.at + LET_LENGTH + |d.name| + |d.params| + 2 }

  /** It stands in the text as written: a public name, and a closed group around the parameters. */
  ghost predicate StandsIn(s: string, d: Declaration) {
    var open := d.at + LET_LENGTH + |d.name|;
    && LetAt(s, d.at) && EndOf(d) <= |s| && s[d.at + LET_LENGTH..open] == d.name
    && d.name != "" && d.name[0] != '_' && (forall k | 0 <= k < |d.name| :: IsIdentChar(d.name[k]))
    && s[open] == '(' && s[open + 1..EndOf(d) - 1] == d.params && ClosesAt(s, open, EndOf(d) - 1)
  }

  /** Each stands in the text, from `from` on, and none overlaps the next. */
  ghost predicate InOrder(s: string, ds: seq<Declaration>, from: nat) {
    ds == [] || (StandsIn(s, ds[0]) && from <= ds[0].at && InOrder(s, ds[1..], EndOf(ds[0])))
  }

  lemma {:induction false} Later(s: string, ds: seq<Declaration>, from: nat, to: nat)
    requires InOrder(s, ds, from) && to <= from
    ensures InOrder(s, ds, to)
  {}

  lemma {:induction false} NameIsIdent(s: string, k: nat, p: nat)
    requires k <= |s| && k <= p < IdentEnd(s, k)
    ensures IsIdentChar(s[p])
    decreases |s| - k
  {
    if k < p { NameIsIdent(s, k + 1, p); }
  }

  lemma NameSlice(s: string, k: nat, name: string)
    requires k <= |s| && k < IdentEnd(s, k) && name == s[k..IdentEnd(s, k)]
    ensures name != "" && name[0] == s[k] && forall p | 0 <= p < |name| :: IsIdentChar(name[p])
  {
    forall p | 0 <= p < |name| ensures IsIdentChar(name[p]) { NameIsIdent(s, k, k + p); }
  }

  lemma OneStands(s: string, at: nat, e: nat)
    requires at < |s| && LetAt(s, at)
    requires var j := IdentEnd(s, at + LET_LENGTH);
             at + LET_LENGTH < j < |s| && s[at + LET_LENGTH] != '_' && s[j] == '(' && CloseFrom(s, j, TOP) == Some(e)
    ensures var j := IdentEnd(s, at + LET_LENGTH);
            && j < e && StandsIn(s, Carve(s, at, j, e)) && EndOf(Carve(s, at, j, e)) == e + 1
  {
    var (name, j) := (at + LET_LENGTH, IdentEnd(s, at + LET_LENGTH));
    CloseExactly(s, j, e);
    NameSlice(s, name, s[name..j]);
    var d := Carve(s, at, j, e);
    assert EndOf(d) == e + 1 && |d.name| == j - name;
  }

  lemma OneInFront(s: string, d: Declaration, ds: seq<Declaration>, from: nat)
    requires StandsIn(s, d) && from <= d.at && InOrder(s, ds, EndOf(d))
    ensures InOrder(s, [d] + ds, from)
  {
    assert ([d] + ds)[1..] == ds;
  }

  lemma {:induction false} DeclarationsStandInOrder(s: string, i: nat)
    ensures InOrder(s, DeclarationsFrom(s, i), i)
    decreases |s| + 1 - i
  {
    match Look(s, i)
    case Nothing =>
    case Skip(next) =>
      DeclarationsStandInOrder(s, next);
      Later(s, DeclarationsFrom(s, next), next, i);
    case Got(at, open, close) =>
      OneStands(s, at, close);
      DeclarationsStandInOrder(s, close + 1);
      OneInFront(s, Carve(s, at, open, close), DeclarationsFrom(s, close + 1), i);
  }

  // Which declarations are found.

  /** A declaration can be read at k. */
  predicate Declares(s: string, k: nat)
    requires LetAt(s, k)
  {
    var (name, j) := (k + LET_LENGTH, IdentEnd(s, k + LET_LENGTH));
    name < j < |s| && s[name] != '_' && s[j] == '(' && CloseFrom(s, j, TOP).Some?
  }

  /** That declaration. */
  function ReadAt(s: string, k: nat): (d: Declaration)
    requires LetAt(s, k)
    ensures d.at == k
  {
    var j := IdentEnd(s, k + LET_LENGTH);
    if Declares(s, k) then Carve(s, k, j, CloseFrom(s, j, TOP).value) else Declaration(k, "", "")
  }

  /** Where the search goes on after "#let " at k: past the declaration, or past the name and one byte more. */
  function After(s: string, k: nat): (n: nat)
    requires LetAt(s, k)
    ensures k < n
  {
    var j := IdentEnd(s, k + LET_LENGTH);
    if Declares(s, k) then CloseFrom(s, j, TOP).value + 1 else j + 1
  }

  /** The search from `from` comes to k: there is no "#let " before, that it comes to, after which it goes
      on past k. */
  ghost predicate Reached(s: string, from: nat, k: nat)
    decreases k
  {
    from <= k && LetAt(s, k) && forall j | from <= j < k && LetAt(s, j) && Reached(s, from, j) :: After(s, j) <= k
  }

  lemma {:induction false} FindsFirst(s: string, i: nat, k: nat)
    requires i <= |s| && i <= k < FindLet(s, i)
    ensures !LetAt(s, k)
    decreases k - i
  {
    if i < k { FindsFirst(s, i + 1, k); }
  }

  /** What stands at k is what the search would read there. */
  lemma {:induction false} StandsExactly(s: string, d: Declaration)
    requires LetAt(s, d.at)
    ensures StandsIn(s, d) <==> Declares(s, d.at) && d == ReadAt(s, d.at)
  {
    var (name, open) := (d.at + LET_LENGTH, d.at + LET_LENGTH + |d.name|);
    if StandsIn(s, d) {
      forall p | name <= p < open ensures IsIdentChar(s[p]) { assert d.name[p - name] == s[p]; }
      IdentEndsAt(s, name, open);
      CloseExactly(s, open, EndOf(d) - 1);
      assert s[name] == d.name[0];
    }
    if Declares(s, d.at) { OneStands(s, d.at, CloseFrom(s, IdentEnd(s, name), TOP).value); }
  }

  lemma FirstIsReached(s: string, i: nat)
    requires i <= |s| && FindLet(s, i) < |s|
    ensures Reached(s, i, FindLet(s, i))
  {
    forall j | i <= j < FindLet(s, i) ensures !LetAt(s, j) { FindsFirst(s, i, j); }
  }

  lemma {:induction false} ReachedFromNext(s: string, i: nat, k: nat)
    requires i <= |s| && FindLet(s, i) < |s| && After(s, FindLet(s, i)) <= k
    ensures Reached(s, i, k) <==> Reached(s, After(s, FindLet(s, i)), k)
    decreases k
  {
    var m := FindLet(s, i);
    var n := After(s, m);
    FirstIsReached(s, i);
    forall j | n <= j < k ensures Reached(s, i, j) <==> Reached(s, n, j) {
      ReachedFromNext(s, i, j);
    }
    forall j | i <= j < n && LetAt(s, j) && Reached(s, i, j) ensures After(s, j) <= k {
      if j < m { FindsFirst(s, i, j); }
    }
  }

  lemma NothingFound(s: string, i: nat, k: nat)
    requires i >= |s| || FindLet(s, i) == |s|
    ensures !Reached(s, i, k)
  {
    if i <= k < |s| { FindsFirst(s, i, k); }
  }

  lemma NotReachedBefore(s: string, i: nat, k: nat)
    requires i <= |s| && FindLet(s, i) < |s| && k < After(s, FindLet(s, i))
    ensures Reached(s, i, k) <==> k == FindLet(s, i)
  {
    FirstIsReached(s, i);
    if i <= k < FindLet(s, i) { FindsFirst(s, i, k); }
  }

  lemma LookHere(s: string, i: nat)
    requires i < |s| && FindLet(s, i) < |s|
    ensures var m := FindLet(s, i);
            match Look(s, i)
            case Nothing => false
            case Skip(next) => !Declares(s, m) && next == After(s, m)
            case Got(at, open, close) =>
              Declares(s, m) && Carve(s, at, open, close) == ReadAt(s, m) && close + 1 == After(s, m)
  {}

  lemma {:induction false} FirstThenRest(s: string, i: nat)
    requires i < |s| && FindLet(s, i) < |s|
    ensures var m := FindLet(s, i);
            var rest := DeclarationsFrom(s, After(s, m));
            DeclarationsFrom(s, i) == if Declares(s, m) then [ReadAt(s, m)] + rest else rest
  {
    LookHere(s, i);
  }

  lemma InFront(d0: Declaration, ds: seq<Declaration>, d: Declaration)
    ensures d in [d0] + ds <==> d == d0 || d in ds
  {}

  lemma FirstFound(s: string, i: nat, d: Declaration)
    requires i < |s| && FindLet(s, i) < |s|
    ensures var m := FindLet(s, i);
            d in DeclarationsFrom(s, i) <==> (d.at == m && StandsIn(s, d)) || d in DeclarationsFrom(s, After(s, m))
  {
    var m := FindLet(s, i);
    FirstThenRest(s, i);
    if d.at == m { StandsExactly(s, d); }
    InFront(ReadAt(s, m), DeclarationsFrom(s, After(s, m)), d);
  }

  /** Exactly the declarations are found that stand in the text and that the search comes to. */
  lemma {:induction false} FoundExactly(s: string, i: nat, d: Declaration)
    ensures d in DeclarationsFrom(s, i) <==> StandsIn(s, d) && Reached(s, i, d.at)
    decreases |s| + 1 - i
  {
    if i >= |s| || FindLet(s, i) == |s| {
      NothingFound(s, i, d.at);
    } else {
      var m := FindLet(s, i);
      var n := After(s, m);
      FoundExactly(s, n, d);
      FirstFound(s, i, d);
      if d.at >= n {
        ReachedFromNext(s, i, d.at);
      } else {
        NotReachedBefore(s, i, d.at);
        assert d !in DeclarationsFrom(s, n);
      }
    }
  }

  lemma AsFound(s: string, j: nat) returns (d: Declaration)
    requires LetAt(s, j) && Reached(s, 0, j) && Declares(s, j)
    ensures d in DeclarationsFrom(s, 0) && d.at == j && EndOf(d) == After(s, j)
  {
    d := ReadAt(s, j);
    StandsExactly(s, d);
    FoundExactly(s, 0, d);
  }

  lemma NameEndsWithLine(s: string, j: nat, k: nat)
    requires LetAt(s, j) && j < k < |s| && s[k] == '\n'
    ensures IdentEnd(s, j + LET_LENGTH) <= k
  {
    if IdentEnd(s, j + LET_LENGTH) > k { NameIsIdent(s, j + LET_LENGTH, k); }
  }

  /** At the start of a line every declaration is found that does not stand among the parameters of
      another one. */
  lemma LineStartsAreFound(s: string, d: Declaration)
    requires StandsIn(s, d) && (d.at == 0 || s[d.at - 1] == '\n')
    requires forall d2 | d2 in DeclarationsFrom(s, 0) && d2.at < d.at :: EndOf(d2) <= d.at
    ensures d in DeclarationsFrom(s, 0)
  {
    forall j | 0 <= j < d.at && LetAt(s, j) && Reached(s, 0, j) ensures After(s, j) <= d.at {
      if Declares(s, j) {
        var d2 := AsFound(s, j);
      } else {
        NameEndsWithLine(s, j, d.at - 1);
      }
    }
    FoundExactly(s, 0, d);
  }

  /** A refused name takes the byte after it along, so a declaration is missed that begins there. */
  lemma SwallowedIsMissed(s: string, k: nat, d: Declaration)
    requires LetAt(s, k) && Reached(s, 0, k) && !Declares(s, k) && d.at == IdentEnd(s, k + LET_LENGTH)
    ensures d !in DeclarationsFrom(s, 0)
  {
    FoundExactly(s, 0, d);
  }

  lemma ExampleIsMissed(s: string, d: Declaration)
    requires |s| == 15 && LetAt(s, 0) && s[5] == 'a' && LetAt(s, 6)
    requires s[11] == 'f' && s[12] == '(' && s[13] == 'x' && s[14] == ')' && d == Declaration(6, "f", "x")
    ensures StandsIn(s, d) && d !in DeclarationsFrom(s, 0)
  {
    IdentEndsAt(s, 5, 6);
    IdentEndsAt(s, 11, 12);
    SwallowedIsMissed(s, 0, d);
    assert CloseFrom(s, 13, Lex(1, Outside)) == CloseFrom(s, 14, Lex(1, Outside)) == Some(14);
    StandsExactly(s, d);
  }

  lemma MissedDeclaration() returns (s: string, d: Declaration)
    ensures s == "#let a#let f(x)" && StandsIn(s, d) && d !in DeclarationsFrom(s, 0)
  {
    s, d := "#let a#let f(x)", Declaration(6, "f", "x");
    ExampleIsMissed(s, d);
  }
}
