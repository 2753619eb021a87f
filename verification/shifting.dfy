/** The scanner looks only at the text ahead of it, so it makes the same moves over a copy. */
module Shifting {
  import opened Text
  import opened Lexing
  import opened ScanMachine

  /** The n bytes of s from i are the n bytes of t from j. */
  predicate Same(s: string, i: nat, t: string, j: nat, n: nat)
    ensures Same(s, i, t, j, n) ==> i + n <= |s| && j + n <= |t|
    decreases n
  {
    if n == 0 then i <= |s| && j <= |t|
    else i < |s| && j < |t| && s[i] == t[j] && Same(s, i + 1, t, j + 1, n - 1)
  }

  predicate Whole(s: string, i: nat, t: string, j: nat, n: nat) {
    i + n == |s| && j + n == |t|
  }

  predicate Seam(s: string, i: nat, t: string, j: nat) {
    i < |s| && j < |t| && (s[i] == '#' || s[i] == 'd') && (t[j] == '#' || t[j] == 'i' || t[j] == 'p')
    && (s[i] == 'd' ==> t[j] != '#')
  }

  /** The copy runs to the end of both texts, or up to a seam: a call in s, its replacement in t. */
  predicate Copied(s: string, i: nat, t: string, j: nat, n: nat) {
    Same(s, i, t, j, n) && (Whole(s, i, t, j, n) || Seam(s, i + n, t, j + n))
  }

  lemma {:induction false} SamePart(s: string, i: nat, t: string, j: nat, n: nat, m: nat)
    requires Same(s, i, t, j, n) && m <= n
    ensures Same(s, i, t, j, m) && Same(s, i + m, t, j + m, n - m)
    decreases m
  {
    if m > 0 {
      SamePart(s, i + 1, t, j + 1, n - 1, m - 1);
    }
  }

  lemma SameAt(s: string, i: nat, t: string, j: nat, n: nat, m: nat)
    requires Same(s, i, t, j, n) && m < n
    ensures s[i + m] == t[j + m]
  {
    SamePart(s, i, t, j, n, m);
  }

  lemma {:induction false} StringShifts(s: string, i: nat, t: string, j: nat, n: nat)
    requires Same(s, i, t, j, n)
    requires Whole(s, i, t, j, n) || (StringEnd(s, i) <= i + n < |s|)
    ensures StringEnd(t, j) - j == StringEnd(s, i) - i
    decreases n
  {
    if n == 0 {
    } else if s[i] == '\\' {
      if n >= 2 {
        StringShifts(s, i + 2, t, j + 2, n - 2);
      }
    } else if s[i] != '"' {
      StringShifts(s, i + 1, t, j + 1, n - 1);
    }
  }

  lemma {:induction false} CharShifts(s: string, c: char, i: nat, t: string, j: nat, n: nat)
    requires Same(s, i, t, j, n)
    requires Whole(s, i, t, j, n) || FindChar(s, c, i) < i + n
    ensures FindChar(t, c, j) - j == FindChar(s, c, i) - i
    decreases n
  {
    if n > 0 && s[i] != c {
      CharShifts(s, c, i + 1, t, j + 1, n - 1);
    }
  }

  lemma {:induction false} CommentShifts(s: string, i: nat, t: string, j: nat, n: nat)
    requires Same(s, i, t, j, n)
    requires Whole(s, i, t, j, n) || (PastComment(s, i) <= i + n < |s|)
    ensures PastComment(t, j) - j == PastComment(s, i) - i
    decreases n
  {
    if n > 0 && !CommentCloseAt(s, i) {
      CommentShifts(s, i + 1, t, j + 1, n - 1);
    }
  }

  lemma {:induction false} FenceShifts(s: string, i: nat, t: string, j: nat, n: nat)
    requires Same(s, i, t, j, n)
    requires Whole(s, i, t, j, n) || (PastFence(s, i) <= i + n < |s|)
    ensures PastFence(t, j) - j == PastFence(s, i) - i
    decreases n
  {
    if n >= 2 { SameAt(s, i, t, j, n, 1); }
    if n >= 3 { SameAt(s, i, t, j, n, 2); }
    if n > 0 && !FenceAt(s, i) {
      FenceShifts(s, i + 1, t, j + 1, n - 1);
    }
  }

  lemma {:induction false} IdentShifts(s: string, i: nat, t: string, j: nat, n: nat)
    requires Same(s, i, t, j, n)
    requires Whole(s, i, t, j, n) || IdentEnd(s, i) < i + n || (IdentEnd(s, i) == i + n && !IsIdentChar(At(t, j + n)))
    ensures IdentEnd(t, j) - j == IdentEnd(s, i) - i
    decreases n
  {
    if n > 0 && IsIdentChar(s[i]) {
      IdentShifts(s, i + 1, t, j + 1, n - 1);
    }
  }

  /** The bytes just ahead: as in the original, or across the seam, where no token begins. */
  lemma AheadShifts(s: string, i: nat, t: string, j: nat, n: nat)
    requires Copied(s, i, t, j, n) && n > 0
    ensures s[i] == t[j]
    ensures At(t, j + 1) == At(s, i + 1) || (n == 1 && Seam(s, i + 1, t, j + 1))
    ensures At(t, j + 2) == At(s, i + 2) || (n == 2 && Seam(s, i + 2, t, j + 2)) || (n == 1 && Seam(s, i + 1, t, j + 1))
    ensures Whole(s, i, t, j, n) ==> At(t, j + 3) == At(s, i + 3)
    ensures n > 3 ==> At(t, j + 3) == At(s, i + 3)
  {
    if n > 1 { SameAt(s, i, t, j, n, 1); }
    if n > 2 { SameAt(s, i, t, j, n, 2); }
    if n > 3 { SameAt(s, i, t, j, n, 3); }
  }

  lemma OpaqueStartsShift(s: string, i: nat, t: string, j: nat, n: nat)
    requires Copied(s, i, t, j, n) && n > 0
    ensures LineCommentAt(s, i) <==> LineCommentAt(t, j)
    ensures BlockCommentAt(s, i) <==> BlockCommentAt(t, j)
    ensures FenceAt(s, i) <==> FenceAt(t, j)
    ensures s[i] == t[j]
    ensures LineCommentAt(s, i) || BlockCommentAt(s, i) ==> n >= 2
    ensures FenceAt(s, i) ==> n >= 3
  {
    AheadShifts(s, i, t, j, n);
  }

  lemma CommentEndShifts(s: string, i: nat, t: string, j: nat, n: nat)
    requires Copied(s, i, t, j, n) && i < |s| && n > 0 && (LineCommentAt(s, i) || BlockCommentAt(s, i))
    requires Whole(s, i, t, j, n) || OpaqueEnd(s, i).value <= i + n
    ensures OpaqueEnd(t, j) == Some((OpaqueEnd(s, i).value - i) + j)
  {
    OpaqueStartsShift(s, i, t, j, n);
    SamePart(s, i, t, j, n, 2);
    if LineCommentAt(s, i) {
      CharShifts(s, '\n', i + 2, t, j + 2, n - 2);
    } else {
      CommentShifts(s, i + 2, t, j + 2, n - 2);
    }
  }

  lemma RawEndShifts(s: string, i: nat, t: string, j: nat, n: nat)
    requires Copied(s, i, t, j, n) && i < |s| && n > 0 && s[i] == '`'
    requires Whole(s, i, t, j, n) || OpaqueEnd(s, i).value <= i + n
    ensures OpaqueEnd(t, j) == Some((OpaqueEnd(s, i).value - i) + j)
  {
    OpaqueStartsShift(s, i, t, j, n);
    if FenceAt(s, i) {
      SamePart(s, i, t, j, n, 3);
      FenceShifts(s, i + 3, t, j + 3, n - 3);
    } else {
      if !Whole(s, i, t, j, n) {
        assert FindChar(s, '`', i + 1) < i + n;
      }
      CharShifts(s, '`', i + 1, t, j + 1, n - 1);
    }
  }

  /** Comments, strings and raw text end at the same place in the copy, and none begins there that
      does not begin in the original. */
  lemma OpaqueShifts(s: string, i: nat, t: string, j: nat, n: nat)
    requires Copied(s, i, t, j, n) && i < |s| && n > 0
    requires var r := OpaqueEnd(s, i); r.Some? ==> Whole(s, i, t, j, n) || r.value <= i + n
    ensures var r := OpaqueEnd(s, i);
            OpaqueEnd(t, j) == if r.None? then None else Some((r.value - i) + j)
  {
    OpaqueStartsShift(s, i, t, j, n);
    if LineCommentAt(s, i) || BlockCommentAt(s, i) {
      CommentEndShifts(s, i, t, j, n);
    } else if s[i] == '"' {
      StringShifts(s, i + 1, t, j + 1, n - 1);
    } else if s[i] == '`' {
      RawEndShifts(s, i, t, j, n);
    }
  }

  /** The place in the copy of a place in the original. */
  function Place(i: nat, j: nat, e: nat): (p: nat)
    requires i <= e
    ensures j <= p
  {
    e - i + j
  }

  function PlaceOf(i: nat, j: nat, a: Action): Action
    requires if a.Call? then i <= a.start && i <= a.afterName else i <= a.next
  {
    match a
    case Advance(n) => Advance(Place(i, j, n))
    case Close(n) => Close(Place(i, j, n))
    case Open(f, n) => Open(f, Place(i, j, n))
    case Call(start, n, ctx) => Call(Place(i, j, start), Place(i, j, n), ctx)
  }

  function Reach(a: Action): nat {
    if a.Call? then a.afterName else a.next
  }

  /** A name that runs up to the seam may go on into the replacement. */
  predicate NameMeetsSeam(s: string, i: nat, t: string, j: nat, n: nat) {
    0 < n && i + n <= |s| && j + n < |t| && !Whole(s, i, t, j, n) && IsIdentChar(s[i + n - 1]) && t[j + n] != '#'
  }

  lemma {:induction false} LastIsIdent(s: string, k: nat)
    requires k <= |s| && k < IdentEnd(s, k)
    ensures IsIdentChar(s[IdentEnd(s, k) - 1])
    decreases |s| - k
  {
    if IdentEnd(s, k) > k + 1 {
      LastIsIdent(s, k + 1);
    }
  }

  lemma NameShifts(s: string, i: nat, t: string, j: nat, n: nat, m: nat)
    requires Copied(s, i, t, j, n) && m <= n
    requires var e := IdentEnd(s, i + m);
             || Whole(s, i, t, j, n) || e < i + n
             || (e == i + n && (t[j + n] == '#' || (m < n && !NameMeetsSeam(s, i, t, j, n))))
    ensures IdentEnd(t, j + m) == Place(i, j, IdentEnd(s, i + m))
    ensures NamesD2(t, j + m, IdentEnd(t, j + m)) <==> NamesD2(s, i + m, IdentEnd(s, i + m))
  {
    SamePart(s, i, t, j, n, m);
    var e := IdentEnd(s, i + m);
    if i + m < e {
      LastIsIdent(s, i + m);
    }
    IdentShifts(s, i + m, t, j + m, n - m);
    if e == i + m + 2 {
      SameAt(s, i, t, j, n, m);
      SameAt(s, i, t, j, n, m + 1);
    }
  }

  lemma HashShifts(s: string, i: nat, t: string, j: nat, n: nat, room: bool)
    requires Copied(s, i, t, j, n) && i < |s| && n > 0
    requires Whole(s, i, t, j, n) || Reach(HashAction(s, i, room)) <= i + n
    requires !Whole(s, i, t, j, n) && IdentEnd(s, i + 1) == i + n ==> t[j + n] == '#'
    ensures HashAction(t, j, room) == PlaceOf(i, j, HashAction(s, i, room))
  {
    var e := IdentEnd(s, i + 1);
    NameShifts(s, i, t, j, n, 1);
    if e < i + n {
      SameAt(s, i, t, j, n, e - i);
    }
  }

  lemma MarkupMoveShifts(s: string, i: nat, t: string, j: nat, n: nat, f: Frame, room: bool)
    requires Copied(s, i, t, j, n) && i < |s| && n > 0 && f.mode.Markup? && s[i] == t[j]
    requires OpaqueEnd(s, i).None? && OpaqueEnd(t, j).None?
    requires Whole(s, i, t, j, n) || Reach(Act(s, i, f, room)) <= i + n
    requires var a := Act(s, i, f, room);
             !Whole(s, i, t, j, n) && Reach(a) == i + n && (a.Advance? || a.Call?) ==> t[j + n] == '#'
    ensures Act(t, j, f, room) == PlaceOf(i, j, Act(s, i, f, room))
  {
    if !(f.stop != '\0' && s[i] == f.stop) && s[i] == '#' {
      HashShifts(s, i, t, j, n, room);
    }
  }

  lemma NameMoveShifts(s: string, i: nat, t: string, j: nat, n: nat, f: Frame, room: bool)
    requires Copied(s, i, t, j, n) && i < |s| && n > 0 && f.mode.Code? && s[i] == t[j]
    requires OpaqueEnd(s, i).None? && OpaqueEnd(t, j).None? && !(f.stop != '\0' && s[i] == f.stop)
    requires AtIdentStart(s, i) && AtIdentStart(t, j)
    requires Whole(s, i, t, j, n) || Reach(Act(s, i, f, room)) <= i + n
    requires Reach(Act(s, i, f, room)) == i + n ==> !NameMeetsSeam(s, i, t, j, n)
    ensures Act(t, j, f, room) == PlaceOf(i, j, Act(s, i, f, room))
  {
    NameShifts(s, i, t, j, n, 0);
  }

  lemma HashedMoveShifts(s: string, i: nat, t: string, j: nat, n: nat, f: Frame, room: bool)
    requires Copied(s, i, t, j, n) && i < |s| && n > 0 && f.mode.Code? && s[i] == t[j]
    requires OpaqueEnd(s, i).None? && OpaqueEnd(t, j).None? && !(f.stop != '\0' && s[i] == f.stop)
    requires !AtIdentStart(s, i) && !AtIdentStart(t, j)
    requires Whole(s, i, t, j, n) || Reach(Act(s, i, f, room)) <= i + n
    requires Reach(Act(s, i, f, room)) == i + n ==> !NameMeetsSeam(s, i, t, j, n)
    ensures Act(t, j, f, room) == PlaceOf(i, j, Act(s, i, f, room))
  {
    AheadShifts(s, i, t, j, n);
  }

  lemma CodeMoveShifts(s: string, i: nat, t: string, j: nat, n: nat, f: Frame, room: bool)
    requires Copied(s, i, t, j, n) && i < |s| && n > 0 && f.mode.Code?
    requires OpaqueEnd(s, i).None? && OpaqueEnd(t, j).None? && FollowsName(s, i) == FollowsName(t, j)
    requires Whole(s, i, t, j, n) || Reach(Act(s, i, f, room)) <= i + n
    requires Reach(Act(s, i, f, room)) == i + n ==> !NameMeetsSeam(s, i, t, j, n)
    ensures Act(t, j, f, room) == PlaceOf(i, j, Act(s, i, f, room))
  {
    AheadShifts(s, i, t, j, n);
    if f.stop != '\0' && s[i] == f.stop {
      assert Act(t, j, f, room) == Close(j + 1);
    } else if AtIdentStart(s, i) {
      NameMoveShifts(s, i, t, j, n, f, room);
    } else {
      assert !AtIdentStart(t, j);
      HashedMoveShifts(s, i, t, j, n, f, room);
    }
  }

  /** A move of the original that stays within the copy is the move of the copy. */
  lemma MoveShifts(s: string, i: nat, t: string, j: nat, n: nat, f: Frame, room: bool)
    requires Copied(s, i, t, j, n) && i < |s| && n > 0
    requires FollowsName(s, i) == FollowsName(t, j)
    requires Whole(s, i, t, j, n) || Reach(Act(s, i, f, room)) <= i + n
    requires Reach(Act(s, i, f, room)) == i + n ==> !NameMeetsSeam(s, i, t, j, n)
    requires var a := Act(s, i, f, room);
             f.mode.Markup? && !Whole(s, i, t, j, n) && Reach(a) == i + n && (a.Advance? || a.Call?) ==> t[j + n] == '#'
    ensures Act(t, j, f, room) == PlaceOf(i, j, Act(s, i, f, room))
  {
    OpaqueShifts(s, i, t, j, n);
    if OpaqueEnd(s, i).None? {
      AheadShifts(s, i, t, j, n);
      if f.mode.Markup? {
        MarkupMoveShifts(s, i, t, j, n, f, room);
      } else {
        CodeMoveShifts(s, i, t, j, n, f, room);
      }
    }
  }
}
