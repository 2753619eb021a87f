/** The sweeper: which workspace files it purges, what it measures, and what a live link protects. */
module Sweeping {
  import opened Text
  import opened Paths
  import opened Workspace
  import OAuth
  import Namespaces

  const FONTS := "fonts"

  datatype PdfLink = PdfLink(user: string, filePath: string, expiresAt: int)

  type Links = map<string, PdfLink>

  /** isConfig. */
  predicate IsConfig(rel: Path) { rel != [] && rel[0] == FONTS }

  /** LivePersistedPaths, for one key of its result. A cleaned absolute path is no path of a walk. */
  function LivePaths(links: Links, user: string, now: int): set<Rel> {
    set t | t in links && links[t].user == user && links[t].expiresAt >= now && !IsAbs(links[t].filePath)
      :: Clean(links[t].filePath)
  }

  /** Purged: old enough, not configuration, not protected. A TTL of zero purges nothing. */
  predicate Doomed(d: Disk, base: Path, protected: set<Rel>, ttl: int, now: int, p: Path) {
    && p in d && d[p].File? && base <= p && !IsConfig(p[|base|..])
    && ttl > 0 && d[p].mtime < now - ttl && Rel(0, p[|base|..]) !in protected
  }

  function Size(d: Disk, p: Path): nat {
    if p in d && d[p].File? then |d[p].content| else 0
  }

  /** What WalkDir visits: everything from base on, a directory before its entries. */
  ghost predicate IsWalk(d: Disk, base: Path, walk: seq<Path>) {
    && (forall p :: p in walk <==> p in d && base <= p)
    && (forall i, k | 0 <= i < k < |walk| :: !(walk[k] <= walk[i]))
  }

  /** Bytes of the regular files on the walk. */
  function Total(d: Disk, walk: seq<Path>): nat {
    if walk == [] then 0 else Total(d, walk[..|walk| - 1]) + Size(d, walk[|walk| - 1])
  }

  /** What is left of the disk d, how many files went with how many bytes, and what was measured. */
  datatype Pass = Pass(disk: Disk, files: nat, bytes: nat, measured: nat)

  function Sweep(d: Disk, base: Path, protected: set<Rel>, ttl: int, now: int, walk: seq<Path>): Pass {
    if walk == [] then Pass(d, 0, 0, 0) else
    var (s, p) := (Sweep(d, base, protected, ttl, now, walk[..|walk| - 1]), walk[|walk| - 1]);
    if Doomed(d, base, protected, ttl, now, p) then Pass(s.disk - {p}, s.files + 1, s.bytes + Size(d, p), s.measured)
    else s.(measured := s.measured + Size(d, p))
  }

  function Purged(d: Disk, base: Path, protected: set<Rel>, ttl: int, now: int): Disk {
    map p | p in d && !Doomed(d, base, protected, ttl, now, p) :: d[p]
  }

  /** Bytes before are bytes measured and bytes deleted. */
  lemma {:induction false} BytesAreConserved(d: Disk, base: Path, protected: set<Rel>, ttl: int, now: int,
                                             walk: seq<Path>)
    ensures var s := Sweep(d, base, protected, ttl, now, walk); Total(d, walk) == s.measured + s.bytes
  {
    if walk != [] { BytesAreConserved(d, base, protected, ttl, now, walk[..|walk| - 1]); }
  }

  /** What was measured is the size of what is left. */
  lemma {:induction false} MeasuredIsLeft(d: Disk, base: Path, protected: set<Rel>, ttl: int, now: int, walk: seq<Path>)
    ensures Sweep(d, base, protected, ttl, now, walk).measured == Total(Purged(d, base, protected, ttl, now), walk)
  {
    if walk != [] { MeasuredIsLeft(d, base, protected, ttl, now, walk[..|walk| - 1]); }
  }

  lemma {:induction false} SweptSoFar(d: Disk, base: Path, protected: set<Rel>, ttl: int, now: int, walk: seq<Path>,
                                      p: Path)
    ensures var d2 := Sweep(d, base, protected, ttl, now, walk).disk;
            && (p in d2 <==> p in d && !(p in walk && Doomed(d, base, protected, ttl, now, p)))
            && (p in d2 ==> d2[p] == d[p])
  {
    if walk != [] {
      SweptSoFar(d, base, protected, ttl, now, walk[..|walk| - 1], p);
      assert walk == walk[..|walk| - 1] + [walk[|walk| - 1]];
    }
  }

  /** The pass deletes exactly the doomed files. */
  lemma SweepIsPurge(d: Disk, base: Path, protected: set<Rel>, ttl: int, now: int, walk: seq<Path>)
    requires IsWalk(d, base, walk)
    ensures Sweep(d, base, protected, ttl, now, walk).disk == Purged(d, base, protected, ttl, now)
  {
    forall p
      ensures p in Sweep(d, base, protected, ttl, now, walk).disk <==> p in Purged(d, base, protected, ttl, now)
    {
      SweptSoFar(d, base, protected, ttl, now, walk, p);
    }
    forall p | p in Purged(d, base, protected, ttl, now)
      ensures Sweep(d, base, protected, ttl, now, walk).disk[p] == d[p]
    {
      SweptSoFar(d, base, protected, ttl, now, walk, p);
    }
  }

  /** The files that are counted are those that are gone. */
  lemma {:induction false} FilesAreCounted(d: Disk, base: Path, protected: set<Rel>, ttl: int, now: int,
                                           walk: seq<Path>)
    requires (forall i | 0 <= i < |walk| :: walk[i] in d) && forall i, k | 0 <= i < k < |walk| :: walk[i] != walk[k]
    ensures var s := Sweep(d, base, protected, ttl, now, walk); |d| == |s.disk| + s.files
  {
    if walk != [] {
      var (n, p) := (|walk| - 1, walk[|walk| - 1]);
      FilesAreCounted(d, base, protected, ttl, now, walk[..n]);
      SweptSoFar(d, base, protected, ttl, now, walk[..n], p);
      assert p !in walk[..n];
      var left := Sweep(d, base, protected, ttl, now, walk[..n]).disk;
      assert |left - {p}| == |left| - 1 by { assert (left - {p}).Keys == left.Keys - {p}; }
    }
  }

  lemma {:induction false} NoneDoomed(d: Disk, base: Path, protected: set<Rel>, ttl: int, now: int, walk: seq<Path>)
    requires forall p <- d :: !Doomed(d, base, protected, ttl, now, p)
    ensures var s := Sweep(d, base, protected, ttl, now, walk); s.disk == d && s.files == 0 && s.bytes == 0
  {
    if walk != [] { NoneDoomed(d, base, protected, ttl, now, walk[..|walk| - 1]); }
  }

  /** An empty directory strictly below base. */
  predicate EmptyDir(d: Disk, base: Path, p: Path) {
    base < p && p in d && d[p] == Dir && forall q <- d :: !(p < q)
  }

  /** The disk without some directories below base. What is left has its ancestors still. */
  ghost predicate PrunedFrom(d: Disk, base: Path, d2: Disk) {
    && (forall p <- d2 :: p in d && d[p] == d2[p])
    && (forall p <- d :: p !in d2 ==> d[p] == Dir && base < p)
    && (forall p <- d, q <- d2 :: p < q ==> p in d2)
  }

  /** And no empty one is left. */
  ghost predicate Pruned(d: Disk, base: Path, d2: Disk) {
    PrunedFrom(d, base, d2) && forall p <- d2 :: !EmptyDir(d2, base, p)
  }

  /** A second pass at the same time deletes nothing, not even after the empty directories are gone. */
  lemma {:induction false} SecondPassDeletesNothing(d: Disk, base: Path, protected: set<Rel>, ttl: int, now: int,
                                                    d2: Disk, walk: seq<Path>)
    requires Pruned(Purged(d, base, protected, ttl, now), base, d2)
    ensures var s := Sweep(d2, base, protected, ttl, now, walk); s.disk == d2 && s.files == 0 && s.bytes == 0
  {
    NoneDoomed(d2, base, protected, ttl, now, walk);
  }

  lemma {:induction false} ZeroTtlDeletesNothing(d: Disk, base: Path, protected: set<Rel>, now: int, walk: seq<Path>)
    ensures var s := Sweep(d, base, protected, 0, now, walk); s.disk == d && s.files == 0 && s.bytes == 0
  {
    NoneDoomed(d, base, protected, 0, now, walk);
  }

  /** Removing p empties no directory that p is not in. */
  lemma StaysFull(d: Disk, base: Path, p: Path, w: Path)
    requires !EmptyDir(d, base, w) && !(w <= p)
    ensures !EmptyDir(d - {p}, base, w)
  {
    if w in d && d[w] == Dir && base < w {
      var q :| q in d && w < q;
      assert q in d - {p};
    }
  }

  lemma PruneOne(d: Disk, base: Path, d2: Disk, p: Path)
    requires PrunedFrom(d, base, d2) && EmptyDir(d2, base, p)
    ensures PrunedFrom(d, base, d2 - {p})
  {}

  // What a live link protects.

  /** LookupPDFLink finds the token. */
  predicate Resolves(links: Links, token: string, now: int) {
    token in links && now <= links[token].expiresAt
  }

  /** The file a link serves. */
  function Served(hash: Hash, root: Path, l: PdfLink): Option<Path> {
    Resolve(root + [DirName(hash, l.user)], l.filePath)
  }

  /** Protection needs the directory to be named by the user id, and a path that does not climb. */
  predicate Sheltered(hash: Hash, l: PdfLink) {
    DirName(hash, l.user) == l.user && Clean(l.filePath).ups == 0
  }

  /** Then no pass, over any user's directory, purges the file while the link resolves. */
  lemma ShelteredFilesSurvive(hash: Hash, root: Path, d: Disk, links: Links, token: string, ttl: int, now: int,
                              user: string)
    requires Resolves(links, token, now) && Sheltered(hash, links[token]) && Served(hash, root, links[token]).Some?
    ensures var p := Served(hash, root, links[token]).value;
            !Doomed(d, root + [user], LivePaths(links, user, now), ttl, now, p)
  {
    var (l, p) := (links[token], Served(hash, root, links[token]).value);
    ResolveStaysBelow(root + [l.user], l.filePath);
    Segment(root, user, p);
    Segment(root, l.user, p);
    if user == l.user {
      var rel := p[|root + [user]|..];
      assert Clean(l.filePath) == Rel(0, rel) && Clean(l.filePath) in LivePaths(links, user, now);
    }
  }

  /** Old enough to be purged, and not among the fonts. */
  predicate Aged(d: Disk, base: Path, ttl: int, now: int, p: Path) {
    p in d && d[p].File? && base < p && p[|base|] != "fonts" && ttl > 0 && d[p].mtime < now - ttl
  }

  /** The link resolves, its user id is the name of the directory, and its path leads to p from there
      without climbing. */
  predicate Keeps(root: Path, links: Links, t: string, dir: string, now: int, p: Path) {
    && Resolves(links, t, now) && links[t].user == dir && Clean(links[t].filePath).ups == 0
    && Resolve(root + [dir], links[t].filePath) == Some(p)
  }

  /** In a directory of any name, new or old, exactly that saves an aged file. */
  lemma SavedExactly(root: Path, d: Disk, links: Links, ttl: int, now: int, dir: string, p: Path)
    requires Aged(d, root + [dir], ttl, now, p)
    ensures Doomed(d, root + [dir], LivePaths(links, dir, now), ttl, now, p)
            <==> !exists t <- links :: Keeps(root, links, t, dir, now, p)
  {
    var (base, live) := (root + [dir], LivePaths(links, dir, now));
    var rel := p[|base|..];
    assert p == base + rel;
    if t :| t in links && Keeps(root, links, t, dir, now, p) {
      ResolveStaysBelow(base, links[t].filePath);
      assert Clean(links[t].filePath) == Rel(0, rel) && Rel(0, rel) in live;
    }
    if Rel(0, rel) in live {
      var t :| t in links && links[t].user == dir && links[t].expiresAt >= now && !IsAbs(links[t].filePath)
               && Clean(links[t].filePath) == Rel(0, rel);
      CleanOfEmpty();
      ResolveStaysBelow(base, links[t].filePath);
      assert Keeps(root, links, t, dir, now, p);
    }
  }

  function Unexpired(links: Links, now: int): Links {
    map t | t in links && links[t].expiresAt >= now :: links[t]
  }

  /** Doomed by the pass over the directory under the root that it is in. */
  predicate DoomedThere(d: Disk, root: Path, links: Links, ttl: int, now: int, p: Path) {
    root < p && root + [p[|root|]] in d && d[root + [p[|root|]]] == Dir
    && Doomed(d, root + [p[|root|]], LivePaths(links, p[|root|], now), ttl, now, p)
  }

  /** A whole pass, expired links deleted first, takes a file exactly where it is in a directory under the
      root, aged, and no link that resolves keeps it. */
  lemma SweptExactly(root: Path, d: Disk, links: Links, ttl: int, now: int, p: Path)
    requires root < p && p in d && d[p].File?
    ensures var (dir, base) := (p[|root|], root + [p[|root|]]);
            DoomedThere(d, root, Unexpired(links, now), ttl, now, p) <==>
              && base in d && d[base] == Dir && Aged(d, base, ttl, now, p)
              && !exists t <- links :: Keeps(root, links, t, dir, now, p)
  {
    var (dir, base, live) := (p[|root|], root + [p[|root|]], Unexpired(links, now));
    Segment(root, dir, p);
    assert base == p || base < p;
    assert forall t ::
        t in links && Keeps(root, links, t, dir, now, p) <==> t in live && Keeps(root, live, t, dir, now, p);
    if Aged(d, base, ttl, now, p) { SavedExactly(root, d, live, ttl, now, dir, p); }
  }

  /** The link resolves, can shelter, and serves the file at p. */
  predicate Shelters(hash: Hash, root: Path, links: Links, t: string, now: int, p: Path) {
    Resolves(links, t, now) && Sheltered(hash, links[t]) && Served(hash, root, links[t]) == Some(p)
  }

  /** So the condition is exact, whatever links there are: an aged file of somebody's workspace is purged
      unless a sheltered link that resolves serves it. */
  lemma OtherwiseTheyAreLost(hash: Hash, root: Path, d: Disk, links: Links, ttl: int, now: int, user: string, p: Path)
    requires IsHex(hash) && Aged(d, root + [DirName(hash, user)], ttl, now, p)
    ensures var dir := DirName(hash, user);
            Doomed(d, root + [dir], LivePaths(links, dir, now), ttl, now, p)
            <==> !exists t <- links :: Shelters(hash, root, links, t, now, p)
  {
    var dir := DirName(hash, user);
    SavedExactly(root, d, links, ttl, now, dir, p);
    DirNameIsSafe(hash, user);
    forall t | t in links ensures Keeps(root, links, t, dir, now, p) <==> Shelters(hash, root, links, t, now, p) {
      if Shelters(hash, root, links, t, now, p) {
        ResolveStaysBelow(root + [links[t].user], links[t].filePath);
        Segment(root, dir, p);
        Segment(root, links[t].user, p);
      }
    }
  }

  /** Among minted ids, nothing protects a file in the directory of a GitHub account. */
  lemma AccountFilesAreNotSheltered(hash: Hash, links: Links, n: int, now: int)
    requires IsHex(hash) && forall t <- links :: Minted(links[t].user)
    ensures LivePaths(links, DirName(hash, Namespaces.UserId(n)), now) == {}
  {
    var id := Namespaces.UserId(n);
    AccountsAreRenamed(hash, n);
    forall t | t in links ensures links[t].user != DirName(hash, id) {
      if links[t].user != id { OldNamesDiffer(hash, links[t].user, id); }
    }
  }

  lemma PlainName(root: Path, name: string)
    requires '/' !in name && name != "" && name != "." && name != ".."
    ensures Resolve(root, name) == Some(root + [name])
  {
    PartsOfName(name);
    assert Parts(name)[1..] == [];
    assert [] + [name] == [name] && Clean(name) == CleanFrom(Rel(0, [name]), []);
    ResolveStaysBelow(root, name);
  }

  /** A link that resolves and serves a file, which the next pass purges all the same. */
  lemma ServedAndPurged(hash: Hash) returns (d: Disk, links: Links, p: Path)
    requires IsHex(hash)
    ensures Resolves(links, "t", 100) && Served(hash, ["root"], links["t"]) == Some(p)
    ensures var dir := DirName(hash, links["t"].user);
            Doomed(d, ["root", dir], LivePaths(links, dir, 100), 10, 100, p)
  {
    var (id, name) := (Namespaces.UserId(1), "out.pdf");
    var dir := DirName(hash, id);
    p := ["root", dir, name];
    d, links := map[p := File("x", 0)], map["t" := PdfLink(id, name, 200)];
    PlainName(["root", dir], name);
    assert p == ["root", dir] + [name] && ["root"] + [dir] == ["root", dir] && p[|["root", dir]|..] == [name];
    AccountFilesAreNotSheltered(hash, links, 1, 100);
  }

  // A pass over all workspaces.

  /** The directories under the root, each once. Links to directories are none. */
  ghost predicate Listed(d: Disk, root: Path, entries: seq<string>) {
    Distinct(entries) && forall e :: e in entries <==> root + [e] in d && d[root + [e]] == Dir
  }

  /** Each directory with its walk. */
  ghost predicate Walked(d: Disk, root: Path, entries: seq<string>, walks: map<string, seq<Path>>) {
    forall i | 0 <= i < |entries| :: entries[i] in walks && IsWalk(d, root + [entries[i]], walks[entries[i]])
  }

  /** Every file is left that is not doomed where it is, wherever on the disk; nothing is new or changed. */
  ghost predicate DoomedAreGone(d: Disk, d2: Disk, root: Path, links: Links, ttl: int, now: int) {
    && (forall p <- d :: d[p].File? ==> (p in d2 <==> !DoomedThere(d, root, links, ttl, now, p)))
    && (forall p <- d2 :: p in d && d2[p] == d[p])
  }

  function PassOver(d: Disk, root: Path, links: Links, ttl: int, now: int, user: string,
                    walks: map<string, seq<Path>>): Pass
    requires user in walks
  {
    Sweep(d, root + [user], LivePaths(links, user, now), ttl, now, walks[user])
  }

  predicate DoomedBy(d: Disk, root: Path, links: Links, ttl: int, now: int, entries: seq<string>, n: nat, p: Path)
    requires n <= |entries|
  {
    exists i | 0 <= i < n :: Doomed(d, root + [entries[i]], LivePaths(links, entries[i], now), ttl, now, p)
  }

  // The files that go, and their bytes, over all users.

  function AllFiles(d: Disk, root: Path, links: Links, ttl: int, now: int, entries: seq<string>,
                    walks: map<string, seq<Path>>): nat
    requires forall i | 0 <= i < |entries| :: entries[i] in walks
  {
    if entries == [] then 0 else
    var n := |entries| - 1;
    var last := PassOver(d, root, links, ttl, now, entries[n], walks);
    AllFiles(d, root, links, ttl, now, entries[..n], walks) + last.files
  }

  function AllBytes(d: Disk, root: Path, links: Links, ttl: int, now: int, entries: seq<string>,
                    walks: map<string, seq<Path>>): nat
    requires forall i | 0 <= i < |entries| :: entries[i] in walks
  {
    if entries == [] then 0 else
    var n := |entries| - 1;
    var last := PassOver(d, root, links, ttl, now, entries[n], walks);
    AllBytes(d, root, links, ttl, now, entries[..n], walks) + last.bytes
  }

  /** A pass sees only what is below its base. */
  lemma {:induction false} SameWalk(d: Disk, d2: Disk, base: Path, protected: set<Rel>, ttl: int, now: int,
                                    walk: seq<Path>)
    requires SameBelow(d, d2, base) && forall i | 0 <= i < |walk| :: base <= walk[i]
    ensures var (s, s2) := (Sweep(d, base, protected, ttl, now, walk), Sweep(d2, base, protected, ttl, now, walk));
            s.files == s2.files && s.bytes == s2.bytes && s.measured == s2.measured
  {
    if walk != [] {
      SameWalk(d, d2, base, protected, ttl, now, walk[..|walk| - 1]);
      assert SameAt(d, d2, walk[|walk| - 1]);
    }
  }

  lemma SameListing(d: Disk, d2: Disk, base: Path, walk: seq<Path>)
    requires IsWalk(d, base, walk) && SameBelow(d, d2, base)
    ensures IsWalk(d2, base, walk) && forall i | 0 <= i < |walk| :: base <= walk[i]
  {
    assert forall i | 0 <= i < |walk| :: walk[i] in walk;
    forall p ensures p in walk <==> p in d2 && base <= p {
      assert base <= p ==> SameAt(d, d2, p);
    }
  }

  /** Of the files, those are left that the first n passes do not purge; nothing is new. */
  ghost predicate FilesLeft(d: Disk, d2: Disk, root: Path, links: Links, ttl: int, now: int, entries: seq<string>,
                            n: nat)
    requires n <= |entries|
  {
    && (forall p <- d :: d[p].File? ==> (p in d2 <==> !DoomedBy(d, root, links, ttl, now, entries, n, p)))
    && (forall p <- d2 :: p in d && d2[p] == d[p])
  }

  lemma DoomedSomewhere(d: Disk, root: Path, links: Links, ttl: int, now: int, entries: seq<string>, p: Path)
    requires Listed(d, root, entries)
    ensures DoomedThere(d, root, links, ttl, now, p) <==> DoomedBy(d, root, links, ttl, now, entries, |entries|, p)
  {
    if DoomedThere(d, root, links, ttl, now, p) {
      var i :| 0 <= i < |entries| && entries[i] == p[|root|];
    }
    if DoomedBy(d, root, links, ttl, now, entries, |entries|, p) {
      var i :| 0 <= i < |entries| &&
        Doomed(d, root + [entries[i]], LivePaths(links, entries[i], now), ttl, now, p);
      Segment(root, entries[i], p);
      assert entries[i] in entries;
    }
  }

  lemma LeftEverywhere(d: Disk, d2: Disk, root: Path, links: Links, ttl: int, now: int, entries: seq<string>)
    requires Listed(d, root, entries) && FilesLeft(d, d2, root, links, ttl, now, entries, |entries|)
    ensures DoomedAreGone(d, d2, root, links, ttl, now)
  {
    forall p | p in d && d[p].File?
      ensures p in d2 <==> !DoomedThere(d, root, links, ttl, now, p)
    {
      DoomedSomewhere(d, root, links, ttl, now, entries, p);
    }
  }

  lemma DoomedNext(d: Disk, root: Path, links: Links, ttl: int, now: int, entries: seq<string>, n: nat, p: Path)
    requires n < |entries|
    ensures DoomedBy(d, root, links, ttl, now, entries, n + 1, p) <==>
            DoomedBy(d, root, links, ttl, now, entries, n, p)
            || Doomed(d, root + [entries[n]], LivePaths(links, entries[n], now), ttl, now, p)
  {}

  lemma NextUser(d: Disk, d2: Disk, root: Path, links: Links, ttl: int, now: int, entries: seq<string>, n: nat,
                 walk: seq<Path>, d3: Disk)
    requires n < |entries| && FilesLeft(d, d2, root, links, ttl, now, entries, n)
    requires var base := root + [entries[n]];
             && SameBelow(d, d2, base) && IsWalk(d2, base, walk)
             && Pruned(Sweep(d2, base, LivePaths(links, entries[n], now), ttl, now, walk).disk, base, d3)
    ensures FilesLeft(d, d3, root, links, ttl, now, entries, n + 1)
  {
    var (base, protected) := (root + [entries[n]], LivePaths(links, entries[n], now));
    SweepIsPurge(d2, base, protected, ttl, now, walk);
    forall p | p in d && d[p].File?
      ensures p in d3 <==> !DoomedBy(d, root, links, ttl, now, entries, n + 1, p)
    {
      assert base <= p ==> SameAt(d, d2, p);
      assert Doomed(d, base, protected, ttl, now, p) ==> Doomed(d2, base, protected, ttl, now, p);
      DoomedNext(d, root, links, ttl, now, entries, n, p);
    }
  }

  // What the totals mean.

  lemma DoomedHere(d: Disk, root: Path, links: Links, ttl: int, now: int, entries: seq<string>, n: nat, p: Path)
    requires Distinct(entries) && n < |entries|
    requires Doomed(d, root + [entries[n]], LivePaths(links, entries[n], now), ttl, now, p)
    ensures !DoomedBy(d, root, links, ttl, now, entries, n, p)
  {
    Segment(root, entries[n], p);
    forall i | 0 <= i < n ensures !(root + [entries[i]] <= p) { Segment(root, entries[i], p); }
  }

  /** What is gone after the first n passes. */
  ghost function GoneBy(d: Disk, root: Path, links: Links, ttl: int, now: int, entries: seq<string>, n: nat): set<Path>
    requires n <= |entries|
  {
    set p | p in d && DoomedBy(d, root, links, ttl, now, entries, n, p)
  }

  /** And what goes in the pass over one user's directory. */
  ghost function GoneIn(d: Disk, root: Path, links: Links, ttl: int, now: int, user: string): set<Path> {
    set p | p in d && Doomed(d, root + [user], LivePaths(links, user, now), ttl, now, p)
  }

  lemma GoneOrNot(d: Disk, root: Path, links: Links, ttl: int, now: int, entries: seq<string>, n: nat, p: Path)
    requires Distinct(entries) && n < |entries|
    ensures var (before, here, after) := (GoneBy(d, root, links, ttl, now, entries, n),
                                          GoneIn(d, root, links, ttl, now, entries[n]),
                                          GoneBy(d, root, links, ttl, now, entries, n + 1));
            (p in after <==> p in before || p in here) && !(p in before && p in here)
  {
    DoomedNext(d, root, links, ttl, now, entries, n, p);
    if p in GoneIn(d, root, links, ttl, now, entries[n]) { DoomedHere(d, root, links, ttl, now, entries, n, p); }
  }

  lemma SizeOfBoth(a: set<Path>, b: set<Path>, both: set<Path>)
    requires forall p :: (p in both <==> p in a || p in b) && !(p in a && p in b)
    ensures |both| == |a| + |b|
  {
    assert both == a + b && a !! b;
  }

  lemma GoneNext(d: Disk, root: Path, links: Links, ttl: int, now: int, entries: seq<string>, n: nat,
                 before: set<Path>, here: set<Path>, after: set<Path>)
    requires Distinct(entries) && n < |entries| && here == GoneIn(d, root, links, ttl, now, entries[n])
    requires before == GoneBy(d, root, links, ttl, now, entries, n)
    requires after == GoneBy(d, root, links, ttl, now, entries, n + 1)
    ensures |after| == |before| + |here|
  {
    forall p ensures (p in after <==> p in before || p in here) && !(p in before && p in here) {
      GoneOrNot(d, root, links, ttl, now, entries, n, p);
    }
    SizeOfBoth(before, here, after);
  }

  lemma OnePassCounts(d: Disk, root: Path, links: Links, ttl: int, now: int, user: string,
                      walks: map<string, seq<Path>>)
    requires user in walks && IsWalk(d, root + [user], walks[user])
    ensures PassOver(d, root, links, ttl, now, user, walks).files == |GoneIn(d, root, links, ttl, now, user)|
  {
    var (base, protected, walk) := (root + [user], LivePaths(links, user, now), walks[user]);
    forall i | 0 <= i < |walk| ensures walk[i] in d { assert walk[i] in walk; }
    forall i, k | 0 <= i < k < |walk| ensures walk[i] != walk[k] { assert !(walk[k] <= walk[i]); }
    FilesAreCounted(d, base, protected, ttl, now, walk);
    SweepIsPurge(d, base, protected, ttl, now, walk);
    var gone := GoneIn(d, root, links, ttl, now, user);
    var left := Purged(d, base, protected, ttl, now);
    assert left.Keys == d.Keys - gone && |left| == |left.Keys| && gone <= d.Keys;
  }

  lemma {:induction false} GoneAreCountedUpTo(d: Disk, root: Path, links: Links, ttl: int, now: int,
                                              entries: seq<string>, walks: map<string, seq<Path>>, n: nat)
    requires Distinct(entries) && Walked(d, root, entries, walks) && n <= |entries|
    ensures AllFiles(d, root, links, ttl, now, entries[..n], walks) == |GoneBy(d, root, links, ttl, now, entries, n)|
  {
    if n > 0 {
      var user := entries[n - 1];
      GoneAreCountedUpTo(d, root, links, ttl, now, entries, walks, n - 1);
      OnePassCounts(d, root, links, ttl, now, user, walks);
      GoneNext(d, root, links, ttl, now, entries, n - 1, GoneBy(d, root, links, ttl, now, entries, n - 1),
               GoneIn(d, root, links, ttl, now, user), GoneBy(d, root, links, ttl, now, entries, n));
      assert entries[..n][..n - 1] == entries[..n - 1];
    } else {
      assert GoneBy(d, root, links, ttl, now, entries, 0) == {};
    }
  }

  /** The number that a pass reports is the number of files that are gone. */
  lemma GoneAreCounted(d: Disk, root: Path, links: Links, ttl: int, now: int, entries: seq<string>,
                       walks: map<string, seq<Path>>)
    requires Listed(d, root, entries) && Walked(d, root, entries, walks)
    ensures AllFiles(d, root, links, ttl, now, entries, walks)
            == |set p | p in d && DoomedThere(d, root, links, ttl, now, p)|
  {
    GoneAreCountedUpTo(d, root, links, ttl, now, entries, walks, |entries|);
    assert entries[..|entries|] == entries;
    forall p | p in d
      ensures DoomedThere(d, root, links, ttl, now, p) <==> DoomedBy(d, root, links, ttl, now, entries, |entries|, p)
    {
      DoomedSomewhere(d, root, links, ttl, now, entries, p);
    }
    assert (set p | p in d && DoomedThere(d, root, links, ttl, now, p))
        == GoneBy(d, root, links, ttl, now, entries, |entries|);
  }

  lemma {:induction false} SameTotal(d: Disk, d2: Disk, walk: seq<Path>)
    requires forall i | 0 <= i < |walk| :: Size(d, walk[i]) == Size(d2, walk[i])
    ensures Total(d, walk) == Total(d2, walk)
  {
    if walk != [] { SameTotal(d, d2, walk[..|walk| - 1]); }
  }

  /** The usage that is recorded is the size of what is left, wherever the passes were. */
  lemma UsageIsLeft(d: Disk, d2: Disk, root: Path, links: Links, ttl: int, now: int, user: string,
                    walks: map<string, seq<Path>>)
    requires root + [user] in d && d[root + [user]] == Dir && DoomedAreGone(d, d2, root, links, ttl, now)
    requires user in walks && IsWalk(d, root + [user], walks[user])
    ensures PassOver(d, root, links, ttl, now, user, walks).measured == Total(d2, walks[user])
  {
    var (base, protected, walk) := (root + [user], LivePaths(links, user, now), walks[user]);
    var left := Purged(d, base, protected, ttl, now);
    MeasuredIsLeft(d, base, protected, ttl, now, walk);
    forall i | 0 <= i < |walk| ensures Size(left, walk[i]) == Size(d2, walk[i]) {
      assert walk[i] in walk;
      Segment(root, user, walk[i]);
    }
    SameTotal(left, d2, walk);
  }

  function Stored(d: Disk, entries: seq<string>, walks: map<string, seq<Path>>): nat
    requires forall i | 0 <= i < |entries| :: entries[i] in walks
  {
    if entries == [] then 0 else
    Stored(d, entries[..|entries| - 1], walks) + Total(d, walks[entries[|entries| - 1]])
  }

  /** Over all workspaces, the bytes before are those that are left and those that are reported deleted. */
  lemma {:induction false} AllBytesAreConserved(d: Disk, d2: Disk, root: Path, links: Links, ttl: int, now: int,
                                                entries: seq<string>, walks: map<string, seq<Path>>)
    requires (forall e <- entries :: root + [e] in d && d[root + [e]] == Dir) && Walked(d, root, entries, walks)
    requires DoomedAreGone(d, d2, root, links, ttl, now)
    ensures Stored(d, entries, walks) == Stored(d2, entries, walks) + AllBytes(d, root, links, ttl, now, entries, walks)
  {
    if entries != [] {
      var (n, user) := (|entries| - 1, entries[|entries| - 1]);
      AllBytesAreConserved(d, d2, root, links, ttl, now, entries[..n], walks);
      BytesAreConserved(d, root + [user], LivePaths(links, user, now), ttl, now, walks[user]);
      assert user in entries;
      UsageIsLeft(d, d2, root, links, ttl, now, user, walks);
    }
  }

  /** The usage of the first n users is what their passes measured. */
  ghost predicate Recorded(d: Disk, root: Path, links: Links, ttl: int, now: int, entries: seq<string>, n: nat,
                           walks: map<string, seq<Path>>, usage: map<string, nat>)
    requires n <= |entries| && forall i | 0 <= i < |entries| :: entries[i] in walks
  {
    forall i | 0 <= i < n :: entries[i] in usage &&
      usage[entries[i]] == PassOver(d, root, links, ttl, now, entries[i], walks).measured
  }

  /** A user's pass leaves other users' files. */
  lemma OthersKept(d: Disk, root: Path, user: string, protected: set<Rel>, ttl: int, now: int, walk: seq<Path>,
                   d2: Disk, other: string)
    requires Pruned(Sweep(d, root + [user], protected, ttl, now, walk).disk, root + [user], d2) && user != other
    ensures SameBelow(d, d2, root + [other])
  {
    forall p ensures root + [other] <= p ==> SameAt(d, d2, p) {
      SweptSoFar(d, root + [user], protected, ttl, now, walk, p);
      Segment(root, user, p);
      Segment(root, other, p);
    }
  }

  /** The workspaces from the n-th on are as they were. */
  ghost predicate RestIsSame(d: Disk, d2: Disk, root: Path, entries: seq<string>, n: nat) {
    forall k | n <= k < |entries| :: SameBelow(d, d2, root + [entries[k]])
  }

  lemma RestKept(d: Disk, d2: Disk, root: Path, entries: seq<string>, i: nat, protected: set<Rel>, ttl: int, now: int,
                 walk: seq<Path>, d3: Disk)
    requires i < |entries| && Distinct(entries) && RestIsSame(d, d2, root, entries, i)
    requires Pruned(Sweep(d2, root + [entries[i]], protected, ttl, now, walk).disk, root + [entries[i]], d3)
    ensures RestIsSame(d, d3, root, entries, i + 1)
  {
    forall k | i < k < |entries| ensures SameBelow(d, d3, root + [entries[k]]) {
      var at := root + [entries[k]];
      OthersKept(d2, root, entries[i], protected, ttl, now, walk, d3, entries[k]);
      forall p ensures at <= p ==> SameAt(d, d3, p) {
        assert at <= p ==> SameAt(d, d2, p) && SameAt(d2, d3, p);
      }
    }
  }

  /** The rest is as it was, so the next pass counts what it would have counted first. */
  lemma SamePass(d: Disk, d2: Disk, root: Path, links: Links, ttl: int, now: int, entries: seq<string>,
                 walks: map<string, seq<Path>>, i: nat)
    requires i < |entries| && Walked(d, root, entries, walks) && SameBelow(d, d2, root + [entries[i]])
    ensures IsWalk(d2, root + [entries[i]], walks[entries[i]])
    ensures var (s, s2) := (PassOver(d, root, links, ttl, now, entries[i], walks),
                            PassOver(d2, root, links, ttl, now, entries[i], walks));
            s.files == s2.files && s.bytes == s2.bytes && s.measured == s2.measured
  {
    var user := entries[i];
    SameListing(d, d2, root + [user], walks[user]);
    SameWalk(d, d2, root + [user], LivePaths(links, user, now), ttl, now, walks[user]);
  }

  lemma NextTotals(d: Disk, root: Path, links: Links, ttl: int, now: int, entries: seq<string>,
                   walks: map<string, seq<Path>>, i: nat)
    requires i < |entries| && forall k | 0 <= k < |entries| :: entries[k] in walks
    ensures var (before, after, here) := (entries[..i], entries[..i + 1],
                                          PassOver(d, root, links, ttl, now, entries[i], walks));
            && AllFiles(d, root, links, ttl, now, after, walks)
               == AllFiles(d, root, links, ttl, now, before, walks) + here.files
            && AllBytes(d, root, links, ttl, now, after, walks)
               == AllBytes(d, root, links, ttl, now, before, walks) + here.bytes
  {
    assert entries[..i + 1][..i] == entries[..i];
  }

  class Sweeper {
    const owned: bool  // a root is configured
    const root: Path
    const ttl: int
    var disk: Disk
    var links: Links
    var usage: map<string, nat>

    /** DeleteExpiredPDFLinks. */
    method DeleteExpiredPDFLinks(now: int)
      modifies this
      ensures links == Unexpired(old(links), now)
      ensures disk == old(disk) && usage == old(usage)
    {
      links := map t | t in links && links[t].expiresAt >= now :: links[t];
    }

    /** The purge of one workspace, along its walk. */
    method Purge(base: Path, protected: set<Rel>, now: int, walk: seq<Path>)
        returns (files: nat, bytes: nat, total: nat)
      requires IsWalk(disk, base, walk)
      modifies this
      ensures Pass(disk, files, bytes, total) == Sweep(old(disk), base, protected, ttl, now, walk)
      ensures links == old(links) && usage == old(usage)
    {
      files, bytes, total := 0, 0, 0;
      for i := 0 to |walk|
        invariant Pass(disk, files, bytes, total) == Sweep(old(disk), base, protected, ttl, now, walk[..i])
        invariant links == old(links) && usage == old(usage)
      {
        var p := walk[i];
        assert walk[..i + 1][..i] == walk[..i];
        StillThere(old(disk), base, protected, now, walk, i);
        if disk[p].File? {
          var (rel, size) := (p[|base|..], |disk[p].content|);
          if IsConfig(rel) {
            total := total + size;
          } else if ttl > 0 && disk[p].mtime < now - ttl && Rel(0, rel) !in protected {
            files, bytes := files + 1, bytes + size;
            disk := disk - {p};
          } else {
            total := total + size;
          }
        }
      }
      assert walk[..|walk|] == walk;
    }

    lemma StillThere(d: Disk, base: Path, protected: set<Rel>, now: int, walk: seq<Path>, i: nat)
      requires IsWalk(d, base, walk) && i < |walk|
      ensures var d2 := Sweep(d, base, protected, ttl, now, walk[..i]).disk;
              walk[i] in d && base <= walk[i] && walk[i] in d2 && d2[walk[i]] == d[walk[i]]
    {
      SweptSoFar(d, base, protected, ttl, now, walk[..i], walk[i]);
      assert walk[i] in walk;
      forall k | 0 <= k < i ensures walk[k] != walk[i] {
        assert !(walk[i] <= walk[k]);
      }
    }

    /** pruneEmptyDirs: backwards along the walk, so that a directory of empty directories goes too. */
    method PruneEmptyDirs(base: Path, walk: seq<Path>)
      requires forall p <- disk :: base <= p ==> p in walk
      requires forall i, k | 0 <= i < k < |walk| :: !(walk[k] <= walk[i])
      modifies this
      ensures Pruned(old(disk), base, disk) && links == old(links) && usage == old(usage)
    {
      for i := |walk| downto 0
        invariant PrunedFrom(old(disk), base, disk)
        invariant forall k | i <= k < |walk| :: !EmptyDir(disk, base, walk[k])
        invariant links == old(links) && usage == old(usage)
      {
        var p := walk[i];
        if EmptyDir(disk, base, p) {
          ghost var before := disk;
          PruneOne(old(disk), base, disk, p);
          disk := disk - {p};
          forall k | i <= k < |walk| ensures !EmptyDir(disk, base, walk[k]) {
            if i < k { StaysFull(before, base, p, walk[k]); }
          }
        }
      }
    }

    /** sweepUser: purge, prune, and record what is left. */
    method SweepUser(user: string, protected: set<Rel>, now: int, walk: seq<Path>) returns (files: nat, bytes: nat)
      requires IsWalk(disk, root + [user], walk)
      modifies this
      ensures var s := Sweep(old(disk), root + [user], protected, ttl, now, walk);
              && Pruned(s.disk, root + [user], disk) && files == s.files && bytes == s.bytes
              && usage == old(usage)[user := s.measured]
      ensures links == old(links)
    {
      var total;
      files, bytes, total := Purge(root + [user], protected, now, walk);
      SweepIsPurge(old(disk), root + [user], protected, ttl, now, walk);
      PruneEmptyDirs(root + [user], walk);
      usage := usage[user := total];
    }

    /** sweepClients: nothing without a TTL; otherwise what is stale is listed, then deleted. */
    method SweepClients(store: OAuth.Store, clientTtl: int, now: int) returns (n: nat)
      modifies store
      ensures store.View() == if clientTtl <= 0 then old(store.View())
                              else OAuth.DropClients(old(store.View()), OAuth.Stale(old(store.View()), now - clientTtl))
      ensures n == if clientTtl <= 0 then 0 else |OAuth.Stale(old(store.View()), now - clientTtl)|
    {
      if clientTtl <= 0 {
        return 0;
      }
      var stale := set c | c in store.clients && store.clients[c].lastUsedAt.None?
                        && store.clients[c].createdAt < now - clientTtl;
      assert stale == OAuth.Stale(store.View(), now - clientTtl);
      if |stale| == 0 {
        assert store.View() == OAuth.DropClients(store.View(), stale);
        return 0;
      }
      n := store.DeleteUnusedClients(now - clientTtl);
    }

    /** SweepOnce: links, clients, then the directories found under the root, if this server owns one. */
    method SweepOnce(store: OAuth.Store, clientTtl: int, now: int, entries: seq<string>, walks: map<string, seq<Path>>)
        returns (clients: nat, files: nat, bytes: nat)
      requires Listed(disk, root, entries) && Walked(disk, root, entries, walks)
      modifies this, store
      ensures links == Unexpired(old(links), now)
      ensures store.View() == if clientTtl <= 0 then old(store.View())
                              else OAuth.DropClients(old(store.View()), OAuth.Stale(old(store.View()), now - clientTtl))
      ensures clients == if clientTtl <= 0 then 0 else |OAuth.Stale(old(store.View()), now - clientTtl)|
      ensures !owned ==> disk == old(disk) && usage == old(usage) && files == bytes == 0
      ensures owned ==>
                && DoomedAreGone(old(disk), disk, root, links, ttl, now)
                && Recorded(old(disk), root, links, ttl, now, entries, |entries|, walks, usage)
                && files == AllFiles(old(disk), root, links, ttl, now, entries, walks)
                && bytes == AllBytes(old(disk), root, links, ttl, now, entries, walks)
    {
      DeleteExpiredPDFLinks(now);
      clients := SweepClients(store, clientTtl, now);
      files, bytes := 0, 0;
      if owned {
        files, bytes := SweepWorkspaces(now, entries, walks);
        LeftEverywhere(old(disk), disk, root, links, ttl, now, entries);
      }
    }

    method SweepWorkspaces(now: int, entries: seq<string>, walks: map<string, seq<Path>>)
        returns (files: nat, bytes: nat)
      requires Distinct(entries) && Walked(disk, root, entries, walks)
      modifies this
      ensures links == old(links)
      ensures FilesLeft(old(disk), disk, root, links, ttl, now, entries, |entries|)
      ensures Recorded(old(disk), root, links, ttl, now, entries, |entries|, walks, usage)
      ensures files == AllFiles(old(disk), root, links, ttl, now, entries, walks)
      ensures bytes == AllBytes(old(disk), root, links, ttl, now, entries, walks)
    {
      files, bytes := 0, 0;
      for i := 0 to |entries|
        invariant links == old(links)
        invariant FilesLeft(old(disk), disk, root, links, ttl, now, entries, i)
        invariant RestIsSame(old(disk), disk, root, entries, i)
        invariant Recorded(old(disk), root, links, ttl, now, entries, i, walks, usage)
        invariant files == AllFiles(old(disk), root, links, ttl, now, entries[..i], walks)
        invariant bytes == AllBytes(old(disk), root, links, ttl, now, entries[..i], walks)
      {
        var user := entries[i];
        var protected := LivePaths(links, user, now);
        ghost var before := disk;
        SamePass(old(disk), disk, root, links, ttl, now, entries, walks, i);
        var f, b := SweepUser(user, protected, now, walks[user]);
        files, bytes := files + f, bytes + b;
        NextUser(old(disk), before, root, links, ttl, now, entries, i, walks[user], disk);
        RestKept(old(disk), before, root, entries, i, protected, ttl, now, walks[user], disk);
        NextTotals(old(disk), root, links, ttl, now, entries, walks, i);
      }
      assert entries[..|entries|] == entries;
    }
  }
}
