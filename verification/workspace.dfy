/** Tenant workspaces: which directory an identity gets, and what its paths can reach. */
module Workspace {
  import opened Text
  import opened Paths
  import Decimal
  import Namespaces

  function Replaced(s: string): string {
    seq(|s|, i requires 0 <= i < |s| => if IsIdentChar(s[i]) then s[i] else '-')
  }

  /** sanitiseSegment. */
  function Sanitised(s: string): string {
    var out := Replaced(s);
    if out == "" || out == "." || out == ".." then "id" else out
  }

  method SanitiseSegment(s: string) returns (out: string)
    ensures out == Sanitised(s)
  {
    out := "";
    for i := 0 to |s|
      invariant out == Replaced(s)[..i]
    {
      out := out + [if IsIdentChar(s[i]) then s[i] else '-'];
    }
    assert out == Replaced(s);
    if out == "" || out == "." || out == ".." {
      out := "id";
    }
  }

  /** A hash in hexadecimal; nothing else is known of it. */
  type Hash = string -> string

  ghost predicate IsHex(hash: Hash) {
    forall s :: |hash(s)| == 64 && forall i | 0 <= i < 64 :: '0' <= hash(s)[i] <= '9' || 'a' <= hash(s)[i] <= 'f'
  }

  function DirName(hash: Hash, id: string): string {
    if Sanitised(id) == id then id
    else Sanitised(id) + "-" + if |hash(id)| < 8 then hash(id) else hash(id)[..8]
  }

  /** The ids the server hands out: gh:<number>, and the anonymous one. */
  ghost predicate Minted(id: string) {
    id == Namespaces.ANONYMOUS || exists n :: id == Namespaces.UserId(n)
  }

  /** A directory name is one plain path segment, whatever the id. */
  lemma DirNameIsPlain(hash: Hash, id: string)
    requires IsHex(hash)
    ensures var name := DirName(hash, id);
            name != "" && name != "." && name != ".." && forall i | 0 <= i < |name| :: IsIdentChar(name[i])
  {}

  /** A plain id names its directory itself. Any other is spelled with hyphens for its unsafe bytes (the
      empty one as id), then a hyphen and the first eight digits of its hash. */
  lemma DirNameExactly(hash: Hash, id: string)
    requires IsHex(hash)
    ensures var (name, safe) := (DirName(hash, id), if id == "" then "id" else Replaced(id));
            if id != "" && forall i | 0 <= i < |id| :: IsIdentChar(id[i])
            then name == id
            else name == safe + "-" + hash(id)[..8] && safe != id
    ensures forall i | 0 <= i < |id| :: Replaced(id)[i] == if IsIdentChar(id[i]) then id[i] else '-'
  {
    if i :| 0 <= i < |id| && !IsIdentChar(id[i]) { assert Replaced(id)[i] == '-' != id[i]; }
    assert forall i | 0 <= i < |id| :: IsIdentChar(Replaced(id)[i]);
    if id == "" { assert Replaced(id) == ""; }
    if forall i | 0 <= i < |id| :: IsIdentChar(id[i]) {
      assert Replaced(id) == id && (id != "" ==> id[0] != '.');
    }
  }

  lemma SafeFormOfAccount(n: int)
    ensures Sanitised(Namespaces.UserId(n)) == "gh-" + Decimal.Print(n) != Namespaces.UserId(n)
  {
    var (p, id) := (Decimal.Print(n), Namespaces.UserId(n));
    assert forall i | 0 <= i < |p| :: IsIdentChar(p[i]);
    assert id[2] == ':' && Replaced(id)[2] == '-';
    assert Replaced(id) == "gh-" + p;
  }

  lemma DirNameOfAccount(hash: Hash, n: int)
    requires IsHex(hash)
    ensures var p := Decimal.Print(n);
            DirName(hash, Namespaces.UserId(n)) == "gh-" + p + "-" + hash(Namespaces.UserId(n))[..8]
  {
    SafeFormOfAccount(n);
  }

  /** A directory name is its own directory name. */
  lemma {:induction false} DirNameIsSafe(hash: Hash, id: string)
    requires IsHex(hash)
    ensures Sanitised(DirName(hash, id)) == DirName(hash, id)
  {
    DirNameIsPlain(hash, id);
    assert Replaced(DirName(hash, id)) == DirName(hash, id);
  }

  lemma SameParts(x: string, h: string, y: string, k: string)
    requires |h| == |k|
    ensures x + "-" + h == y + "-" + k <==> x == y && h == k
  {
    var (u, v) := (x + "-" + h, y + "-" + k);
    assert |u| == |x| + 1 + |h| && |v| == |y| + 1 + |k|;
    if u == v {
      assert x == u[..|x|] && y == v[..|y|] && h == u[|x| + 1..] && k == v[|y| + 1..];
    }
  }

  /** Two ids share a directory exactly when one is unsafe and the other is spelled like its
      directory, or both are unsafe and agree in their safe form and in eight digits of the hash. */
  lemma {:induction false} DirNamesCollideExactly(hash: Hash, a: string, b: string)
    requires IsHex(hash) && a != b
    ensures DirName(hash, a) == DirName(hash, b) <==>
            || (Sanitised(a) != a && b == DirName(hash, a))
            || (Sanitised(b) != b && a == DirName(hash, b))
            || (Sanitised(a) != a && Sanitised(b) != b
                && Sanitised(a) == Sanitised(b) && hash(a)[..8] == hash(b)[..8])
  {
    DirNameIsSafe(hash, a);
    DirNameIsSafe(hash, b);
    if Sanitised(a) != a && Sanitised(b) != b {
      SameParts(Sanitised(a), hash(a)[..8], Sanitised(b), hash(b)[..8]);
    }
  }

  /** No hash avoids the first kind: the account gh:1 shares its directory with an id that is spelled
      like it. */
  lemma FirstAccountCollides(hash: Hash)
    requires IsHex(hash)
    ensures var (a, b) := ("gh:1", "gh-1-" + hash("gh:1")[..8]); a != b && DirName(hash, a) == DirName(hash, b) == b
  {
    var (a, b) := ("gh:1", "gh-1-" + hash("gh:1")[..8]);
    assert Replaced(a) == "gh-1";
    assert a[2] == ':' && b[2] == '-';
    DirNamesCollideExactly(hash, a, b);
  }

  lemma AccountDirStarts(hash: Hash, n: int)
    requires IsHex(hash)
    ensures var name := DirName(hash, Namespaces.UserId(n)); name != "" && name[0] == 'g'
  {
    DirNameOfAccount(hash, n);
  }

  /** A minted id is not the directory name of another. */
  lemma OldNamesDiffer(hash: Hash, a: string, b: string)
    requires IsHex(hash) && Minted(a) && Minted(b) && a != b
    ensures a != DirName(hash, b)
  {
    if a != Namespaces.ANONYMOUS {
      var n :| a == Namespaces.UserId(n);
      DirNameIsPlain(hash, b);
      assert a[2] == ':' && !IsIdentChar(':');
    } else {
      var n :| b == Namespaces.UserId(n);
      AccountDirStarts(hash, n);
    }
  }

  lemma UnsafeIsAccount(id: string) returns (n: int)
    requires Minted(id) && Sanitised(id) != id
    ensures id == Namespaces.UserId(n)
  {
    assert Replaced(Namespaces.ANONYMOUS) == Namespaces.ANONYMOUS;
    n :| id == Namespaces.UserId(n);
  }

  lemma SafeFormsDiffer(a: string, b: string)
    requires Minted(a) && Minted(b) && a != b && Sanitised(a) != a && Sanitised(b) != b
    ensures Sanitised(a) != Sanitised(b)
  {
    var n := UnsafeIsAccount(a);
    var m := UnsafeIsAccount(b);
    SafeFormOfAccount(n);
    SafeFormOfAccount(m);
    assert Sanitised(a)[3..] == Decimal.Print(n) && Sanitised(b)[3..] == Decimal.Print(m);
    if Sanitised(a) == Sanitised(b) { Decimal.PrintsDiffer(n, m); }
  }

  /** No two minted ids share a directory, even where the hash collides. */
  lemma DirNamesDiffer(hash: Hash, a: string, b: string)
    requires IsHex(hash) && Minted(a) && Minted(b) && a != b
    ensures DirName(hash, a) != DirName(hash, b)
  {
    DirNamesCollideExactly(hash, a, b);
    OldNamesDiffer(hash, a, b);
    OldNamesDiffer(hash, b, a);
    if Sanitised(a) != a && Sanitised(b) != b { SafeFormsDiffer(a, b); }
  }

  /** ScopedFS.Resolve. */
  function Resolve(root: Path, path: string): Option<Path> {
    if path == "" || IsAbs(path) then None else
    var cleaned := Walk(root, Parts(path));
    if RelTo(root, cleaned).ups > 0 then None else Some(cleaned)
  }

  /** Accepted paths are below the root; and a path that does not climb is accepted as it reads. */
  lemma ResolveStaysBelow(root: Path, path: string)
    ensures Resolve(root, path).Some? <==> path != "" && !IsAbs(path) && root <= Follow(root, Clean(path))
    ensures Resolve(root, path).Some? ==> root <= Resolve(root, path).value == Follow(root, Clean(path))
    ensures path != "" && !IsAbs(path) && Clean(path).ups == 0 ==> Resolve(root, path) == Some(root + Clean(path).down)
  {
    JoinFollowsClean(root, path);
    RelLeadsBack(root, Walk(root, Parts(path)));
    assert Above(root, 0) == root;
  }

  /** Two tenants never reach the same path. */
  lemma TenantsShareNoPath(hash: Hash, root: Path, a: string, b: string, pa: string, pb: string)
    requires IsHex(hash) && Minted(a) && Minted(b) && a != b
    requires Resolve(root + [DirName(hash, a)], pa).Some? && Resolve(root + [DirName(hash, b)], pb).Some?
    ensures Resolve(root + [DirName(hash, a)], pa) != Resolve(root + [DirName(hash, b)], pb)
  {
    DirNamesDiffer(hash, a, b);
    ResolveStaysBelow(root + [DirName(hash, a)], pa);
    ResolveStaysBelow(root + [DirName(hash, b)], pb);
    var p := Resolve(root + [DirName(hash, a)], pa).value;
    assert p[|root|] == DirName(hash, a);
  }

  // Workspaces made before directories were named this way.

  /** Where the entry at p was before a rename. */
  function Before(from: Path, to: Path, p: Path): Path {
    if to <= p then from + p[|to|..] else p
  }

  /** os.Rename of a directory to where nothing is. */
  function Renamed(d: Disk, from: Path, to: Path): Disk {
    var places := d.Keys + set p | p in d && from <= p :: to + p[|from|..];
    map p | p in places && Before(from, to, p) in d && (to <= p || !(from <= p)) :: d[Before(from, to, p)]
  }

  /** os.Stat finds a directory, directly or at the end of a link. */
  predicate LeadsToDir(d: Disk, p: Path) {
    p in d && (d[p] == Dir || (d[p].Link? && d[p].target in d && d[d[p].target] == Dir))
  }

  /** os.Stat finds something: not a link that leads nowhere. */
  predicate Found(d: Disk, p: Path) {
    p in d && (d[p].Link? ==> d[p].target in d)
  }

  /** migrateLegacyDir. None: the rename fails, for a directory cannot take the place of a link. */
  function Migrated(d: Disk, legacy: Path, current: Path): Option<Disk> {
    if legacy == current || Found(d, current) || !LeadsToDir(d, legacy) then Some(d)
    else if current in d && d[legacy] == Dir then None
    else Some(Renamed(d - {current}, legacy, current))
  }

  /** What was under the old directory is at the same place under the new one, where nothing was. */
  lemma {:induction false} MigrationKeepsFiles(d: Disk, legacy: Path, current: Path, rel: Path)
    requires !(legacy <= current) && !(current <= legacy) && current !in d && LeadsToDir(d, legacy)
    ensures Migrated(d, legacy, current).Some?
    ensures var d2 := Migrated(d, legacy, current).value;
            && (current + rel in d2 <==> legacy + rel in d)
            && (legacy + rel in d ==> d2[current + rel] == d[legacy + rel])
            && legacy + rel !in d2
  {
    assert d - {current} == d;
    var (there, here) := (legacy + rel, current + rel);
    assert Before(legacy, current, here) == there;
    assert legacy <= there && current + there[|legacy|..] == here;
    Comparable(legacy, current, there);
  }

  /** Everything else stays. */
  lemma MigrationTouchesNothingElse(d: Disk, legacy: Path, current: Path, p: Path)
    requires !(legacy <= p) && !(current <= p) && Migrated(d, legacy, current).Some?
    ensures SameAt(d, Migrated(d, legacy, current).value, p)
  {}

  function OpenedAt(d: Disk, legacy: Path, dir: Path): (Disk, Option<Path>) {
    match Migrated(d, legacy, dir)
    case None => (d, None)
    case Some(d2) => if dir in d2 && !Found(d2, dir) then (d2, None) else (MkdirAll(d2, dir), Some(dir))
  }

  /** What opening a workspace leaves, and its root, unless it fails. */
  function Opened(hash: Hash, root: Path, d: Disk, id: string): (Disk, Option<Path>) {
    if id == "" then (d, None) else OpenedAt(d, Walk(root, Parts(id)), root + [DirName(hash, id)])
  }

  /** Opening a workspace loses no file: each one stays where it is, or moves with the old directory; and what
      the workspace held already stays. */
  lemma OpeningLosesNoFile(d: Disk, legacy: Path, dir: Path, p: Path)
    requires !(legacy <= dir) && !(dir <= legacy) && p in d && d[p].File?
    requires dir < p ==> dir in d && d[dir] == Dir
    ensures var d2 := OpenedAt(d, legacy, dir).0;
            || (p in d2 && d2[p] == d[p])
            || (!Found(d, dir) && legacy <= p && dir + p[|legacy|..] in d2 && d2[dir + p[|legacy|..]] == d[p])
  {
    if Migrated(d, legacy, dir).Some? {
      var (d2, to) := (Migrated(d, legacy, dir).value, if legacy <= p then dir + p[|legacy|..] else p);
      Comparable(legacy, dir, p);
      if legacy <= p { assert to[|dir|..] == p[|legacy|..] && legacy + p[|legacy|..] == p; }
      assert dir <= p ==> dir == p || dir < p;
      if d2 != d {
        var e := d - {dir};
        assert d2 == Renamed(e, legacy, dir) && !(dir <= p) && Before(legacy, dir, to) == p;
        assert to in e.Keys + set q | q in e && legacy <= q :: dir + q[|legacy|..];
        assert dir <= to || !(legacy <= to);
        assert to in d2 && d2[to] == d[p];
      }
      MkdirAllAdds(d2, dir, to);
      MkdirAllAdds(d2, dir, p);
    }
  }

  /** The factory that gives every tenant a root of its own. */
  class TenantFactory {
    const root: Path
    const hash: Hash
    var disk: Disk

    constructor (root: Path, hash: Hash, disk: Disk)
      ensures this.root == root && this.hash == hash && this.disk == disk
    {
      this.root, this.hash, this.disk := root, hash, disk;
    }

    /** The root that id's paths are resolved under. */
    method Resolver(id: string) returns (out: Option<Path>)
      modifies this
      ensures (disk, out) == Opened(hash, root, old(disk), id)
      ensures out.Some? ==> id != "" && out.value == root + [DirName(hash, id)] && Found(disk, out.value)
    {
      if id == "" {
        return None;
      }
      var dir := root + [DirName(hash, id)];
      var ok := MigrateLegacyDir(Walk(root, Parts(id)), dir);
      if !ok {
        return None;
      }
      if dir in disk && !Found(disk, dir) {
        return None;
      }
      MkdirAllAdds(disk, dir, dir);
      disk := MkdirAll(disk, dir);
      out := Some(dir);
    }

    method MigrateLegacyDir(legacy: Path, current: Path) returns (ok: bool)
      modifies this
      ensures ok == Migrated(old(disk), legacy, current).Some?
      ensures disk == if ok then Migrated(old(disk), legacy, current).value else old(disk)
    {
      ok := true;
      if legacy == current || Found(disk, current) {
        return;
      }
      if !LeadsToDir(disk, legacy) {
        return;
      }
      if current in disk && disk[legacy] == Dir {
        return false;
      }
      disk := Renamed(disk - {current}, legacy, current);
    }
  }

  lemma OpenedKeeps(d: Disk, legacy: Path, dir: Path, p: Path)
    requires !(legacy <= p) && !(dir <= p) && !(p <= dir)
    ensures SameAt(d, OpenedAt(d, legacy, dir).0, p)
  {
    if Migrated(d, legacy, dir).Some? {
      MigrationTouchesNothingElse(d, legacy, dir, p);
      MkdirAllAdds(Migrated(d, legacy, dir).value, dir, p);
    }
  }

  lemma LegacyDir(root: Path, id: string)
    requires Minted(id)
    ensures Walk(root, Parts(id)) == root + [id]
  {
    if id != Namespaces.ANONYMOUS {
      var n :| id == Namespaces.UserId(n);
      assert forall i | 0 <= i < |id| :: id[i] != '/';
    }
    PartsOfName(id);
    assert Walk(root, [id]) == Walk(root + [id], [id][1..]);
  }

  /** Opening one tenant's workspace leaves another's alone, under its new name and its old one. */
  lemma OpeningLeavesOthersAlone(hash: Hash, root: Path, d: Disk, a: string, b: string, p: Path)
    requires IsHex(hash) && Minted(a) && Minted(b) && a != b
    requires root + [DirName(hash, b)] <= p || root + [b] <= p
    ensures SameAt(d, Opened(hash, root, d, a).0, p)
  {
    LegacyDir(root, a);
    OldNamesDiffer(hash, a, b);
    OldNamesDiffer(hash, b, a);
    DirNamesDiffer(hash, a, b);
    var (legacy, dir) := (root + [a], root + [DirName(hash, a)]);
    Segment(root, a, p);
    Segment(root, b, p);
    Segment(root, DirName(hash, a), p);
    Segment(root, DirName(hash, b), p);
    assert !(p <= dir) by { assert |p| >= |dir|; }
    OpenedKeeps(d, legacy, dir, p);
  }

  /** What deleting a user deletes: the directory named by the id itself. None: refused. */
  function UserRemoved(root: Path, d: Disk, id: string): Option<Disk> {
    if id == "" || '/' in id || '\\' in id || id == "." || id == ".." then None else
    var target := Walk(root, Parts(id));
    if RelTo(root, target).ups > 0 || target == root then None else Some(RemoveAll(d, target))
  }

  /** It removes the user's workspace exactly when the directory is named by the id, which no GitHub
      account's is. */
  lemma RemovalNeedsThePlainName(hash: Hash, root: Path, d: Disk, id: string, p: Path)
    requires UserRemoved(root, d, id).Some? && p in d && root + [DirName(hash, id)] <= p
    ensures p in UserRemoved(root, d, id).value <==> DirName(hash, id) != id
  {
    PartsOfName(id);
    assert Walk(root, [id]) == Walk(root + [id], [id][1..]);
    Segment(root, id, p);
    Segment(root, DirName(hash, id), p);
  }

  lemma AccountsAreRenamed(hash: Hash, n: int)
    requires IsHex(hash)
    ensures DirName(hash, Namespaces.UserId(n)) != Namespaces.UserId(n)
  {
    DirNameIsPlain(hash, Namespaces.UserId(n));
    assert Namespaces.UserId(n)[2] == ':' && !IsIdentChar(':');
  }

  /** Deleting an account is never refused. It deletes what is in a directory under the account's old
      name, and nothing else. */
  lemma OldDirectoryIsRemoved(root: Path, d: Disk, n: int)
    ensures UserRemoved(root, d, Namespaces.UserId(n)) == Some(RemoveAll(d, root + [Namespaces.UserId(n)]))
  {
    var id := Namespaces.UserId(n);
    assert id[0] == 'g' && forall i | 0 <= i < |id| :: id[i] != '/' && id[i] != '\\';
    LegacyDir(root, id);
    RelLeadsBack(root, root + [id]);
  }

  /** So every file in the directory that the account has today stays. */
  lemma AccountFilesOutliveTheAccount(hash: Hash, root: Path, d: Disk, n: int, p: Path)
    requires IsHex(hash) && p in d && root + [DirName(hash, Namespaces.UserId(n))] <= p
    ensures var removed := UserRemoved(root, d, Namespaces.UserId(n));
            removed.Some? && p in removed.value && removed.value[p] == d[p]
  {
    var id := Namespaces.UserId(n);
    OldDirectoryIsRemoved(root, d, n);
    AccountsAreRenamed(hash, n);
    RemovalNeedsThePlainName(hash, root, d, id, p);
  }
}
