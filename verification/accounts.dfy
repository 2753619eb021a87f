/** Whose rows a deletion takes, and when two spellings are one login. */
module Accounts {
  import opened Text
  import opened OAuth
  import RawBlocks

  /** The same letter but for its case. */
  predicate SameLetter(c: char, d: char) {
    c == d || ('A' <= c <= 'Z' && d as int == c as int + 32) || ('A' <= d <= 'Z' && c as int == d as int + 32)
  }

  predicate Alike(a: string, b: string) {
    |a| == |b| && forall i | 0 <= i < |a| :: SameLetter(a[i], b[i])
  }

  lemma LettersExactly(c: char, d: char)
    ensures ToLower(c) == ToLower(d) <==> SameLetter(c, d)
  {}

  lemma {:induction false} LowerExactly(a: string, b: string)
    ensures Lower(a) == Lower(b) <==> Alike(a, b)
  {
    forall i | 0 <= i < |a| && i < |b| ensures Lower(a)[i] == Lower(b)[i] <==> SameLetter(a[i], b[i]) {
      LettersExactly(a[i], b[i]);
    }
    if Lower(a) == Lower(b) {
      assert |a| == |Lower(a)| == |b|;
      forall i | 0 <= i < |a| ensures SameLetter(a[i], b[i]) { assert Lower(a)[i] == Lower(b)[i]; }
    }
  }

  /** Trimming takes the white space at both ends, and nothing else. */
  lemma {:induction false} TrimExactly(s: string) returns (before: string, after: string)
    ensures s == before + TrimSpace(s) + after && RawBlocks.Spaces(before) && RawBlocks.Spaces(after)
    ensures var t := TrimSpace(s); t != "" ==> !IsSpace(t[0]) && !IsSpace(t[|t| - 1])
  {
    var a := SkipSpace(s, 0);
    var b := BackSpace(s, a, |s|);
    RawBlocks.SkippedAreSpaces(s, 0);
    RawBlocks.BackedAreSpaces(s, a, |s|);
    before, after := s[..a], s[b..];
    assert s == s[..a] + s[a..b] + s[b..];
  }

  /** Exactly the users go whose login is spelled so, but for case and the space around it, and with them
      exactly their codes and keys. */
  lemma DeletionExactly(t: Tables, login: string, u: nat)
    requires u in t.users
    ensures var t2 := DropUsers(t, UsersNamed(t, NormalizeLogin(login)));
            && (u in t2.users <==> !Alike(t.users[u].login, TrimSpace(login)))
            && (u in t2.users ==> t2.users[u] == t.users[u])
            && (forall c <- t.codes | t.codes[c].user == u :: c in t2.codes <==> u in t2.users)
            && (forall k <- t.keys | t.keys[k] == u :: k in t2.keys <==> u in t2.users)
            && t2.clients == t.clients && t2.sessions == t.sessions
  {
    LowerExactly(t.users[u].login, TrimSpace(login));
  }
}
