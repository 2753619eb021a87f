/** Writing through symbolic links: where a path really leads, and what a write there touches. */
module Links {
  import opened Text
  import opened Paths

  /** Where a path leads: every link on the way is followed. Link targets are real already. */
  function Real(d: Disk, p: Path): Path
    decreases |p|
  {
    if p == [] then [] else
    var at := Real(d, p[..|p| - 1]) + [p[|p| - 1]];
    if at in d && d[at].Link? then d[at].target else at
  }

  predicate NoLink(d: Disk, p: Path) {
    p in d ==> !d[p].Link?
  }

  /** Neither p nor anything on the way to it is a link. */
  predicate Plain(d: Disk, p: Path)
    decreases |p|
  {
    NoLink(d, p) && (p == [] || Plain(d, p[..|p| - 1]))
  }

  ghost predicate NoLinksFrom(d: Disk, at: Path) {
    forall p | at <= p :: NoLink(d, p)
  }

  lemma {:induction false} PlainIsReal(d: Disk, p: Path)
    requires Plain(d, p)
    ensures Real(d, p) == p
    decreases |p|
  {
    if p != [] {
      PlainIsReal(d, p[..|p| - 1]);
      assert p == p[..|p| - 1] + [p[|p| - 1]];
    }
  }

  lemma {:induction false} PlainBelow(d: Disk, at: Path, p: Path)
    requires Plain(d, at) && NoLinksFrom(d, at) && at <= p
    ensures Plain(d, p)
    decreases |p|
  {
    if at != p {
      assert at <= p[..|p| - 1];
      PlainBelow(d, at, p[..|p| - 1]);
    }
  }

  lemma {:induction false} PlainPrefix(d: Disk, p: Path, q: Path)
    requires Plain(d, p) && q <= p
    ensures Plain(d, q)
    decreases |p|
  {
    if q != p { PlainPrefix(d, p[..|p| - 1], q); }
  }

  lemma {:induction false} PlainStays(d: Disk, d2: Disk, p: Path)
    requires Plain(d, p) && forall q | q <= p && NoLink(d, q) :: NoLink(d2, q)
    ensures Plain(d2, p)
    decreases |p|
  {
    if p != [] { PlainStays(d, d2, p[..|p| - 1]); }
  }

  /** A path through a link leads into what the link points at. */
  lemma {:induction false} ThroughLink(d: Disk, link: Path, rest: Path)
    requires link != [] && Plain(d, link[..|link| - 1]) && link in d && d[link].Link?
    requires NoLinksFrom(d, d[link].target)
    ensures Real(d, link + rest) == d[link].target + rest
    decreases |rest|
  {
    var up := link[..|link| - 1];
    PlainIsReal(d, up);
    assert up + [link[|link| - 1]] == link;
    if rest == [] {
      assert link + rest == link && d[link].target + rest == d[link].target;
    } else {
      var n := |rest| - 1;
      ThroughLink(d, link, rest[..n]);
      var p := link + rest;
      assert p[..|p| - 1] == link + rest[..n] && p[|p| - 1] == rest[n];
      assert (d[link].target + rest[..n]) + [rest[n]] == d[link].target + rest;
      assert NoLink(d, d[link].target + rest);
    }
  }

  // Calls to the operating system. All but Remove and Symlink follow the links on the way.

  function MakeDirs(d: Disk, p: Path): Disk
    decreases |p|
  {
    if Real(d, p) in d then d
    else if p == [] then d[p := Dir]
    else
      var d2 := MakeDirs(d, p[..|p| - 1]);
      d2[Real(d2, p) := Dir]
  }

  /** copyFile: the parent directory, then the file. */
  function CopyTo(d: Disk, p: Path, content: string, now: int): Disk
    requires p != []
  {
    var d2 := MakeDirs(d, p[..|p| - 1]);
    d2[Real(d2, p) := File(content, now)]
  }

  function Symlink(d: Disk, target: Path, p: Path): Disk
    requires p != []
  {
    var at := Real(d, p[..|p| - 1]) + [p[|p| - 1]];
    if at in d then d else d[at := Link(target)]
  }

  /** Removes a link itself, or a file, or an empty directory. */
  function Remove(d: Disk, p: Path): Disk
    requires p != []
  {
    var at := Real(d, p[..|p| - 1]) + [p[|p| - 1]];
    if at in d && d[at] == Dir && exists q <- d :: at < q then d else d - {at}
  }

  // On plain paths.

  lemma DirsKeepPlain(d: Disk, made: Path, p: Path)
    requires Plain(d, p)
    ensures Plain(MkdirAll(d, made), p)
  {
    forall q | q <= p && NoLink(d, q) ensures NoLink(MkdirAll(d, made), q) { MkdirAllAdds(d, made, q); }
    PlainStays(d, MkdirAll(d, made), p);
  }

  lemma {:induction false} PlainMakeDirs(d: Disk, p: Path)
    requires Plain(d, p)
    ensures MakeDirs(d, p) == MkdirAll(d, p)
    decreases |p|
  {
    PlainIsReal(d, p);
    if p !in d && p != [] {
      var up := p[..|p| - 1];
      PlainMakeDirs(d, up);
      DirsKeepPlain(d, up, p);
      PlainIsReal(MkdirAll(d, up), p);
    }
  }

  lemma PlainSymlink(d: Disk, target: Path, p: Path)
    requires p != [] && Plain(d, p[..|p| - 1])
    ensures Symlink(d, target, p) == if p in d then d else d[p := Link(target)]
  {
    PlainIsReal(d, p[..|p| - 1]);
    assert p == p[..|p| - 1] + [p[|p| - 1]];
  }

  // Installing a package.

  datatype Shipped = Shipped(rel: Path, content: string)

  /** installPackage: the directory, then file after file. */
  function Install(d: Disk, files: seq<Shipped>, dest: Path, now: int): Disk
    requires forall i | 0 <= i < |files| :: files[i].rel != []
  {
    if files == [] then MakeDirs(d, dest) else
    var n := |files| - 1;
    CopyTo(Install(d, files[..n], dest, now), dest + files[n].rel, files[n].content, now)
  }

  lemma CopyPlain(d: Disk, p: Path, content: string, now: int)
    requires p != [] && Plain(d, p)
    ensures CopyTo(d, p, content, now) == MkdirAll(d, p[..|p| - 1])[p := File(content, now)]
  {
    var up := p[..|p| - 1];
    PlainMakeDirs(d, up);
    DirsKeepPlain(d, up, p);
    PlainIsReal(MkdirAll(d, up), p);
  }

  /** Directories made below a plain place without links. */
  lemma DirsStayBelow(d: Disk, dest: Path, p: Path)
    requires Plain(d, dest) && NoLinksFrom(d, dest) && dest in d && dest <= p
    ensures var d2 := MakeDirs(d, p);
            && Plain(d2, dest) && NoLinksFrom(d2, dest) && dest in d2
            && forall q :: (q in d ==> q in d2 && d2[q] == d[q]) && (q in d2 && q !in d ==> dest <= q && d2[q] == Dir)
  {
    var d2 := MkdirAll(d, p);
    PlainBelow(d, dest, p);
    PlainMakeDirs(d, p);
    forall q ensures (q in d ==> q in d2 && d2[q] == d[q]) && (q in d2 && q !in d ==> dest <= q && d2[q] == Dir) {
      MkdirAllAdds(d, p, q);
      if !(dest <= q) { MkdirAllStaysBelow(d, dest, p, q); }
    }
    DirsKeepPlain(d, p, dest);
    forall q | dest <= q ensures NoLink(d2, q) { assert NoLink(d, q); }
  }

  lemma CopyStaysBelow(d: Disk, f: Shipped, dest: Path, now: int)
    requires f.rel != [] && Plain(d, dest) && NoLinksFrom(d, dest) && dest in d
    ensures var d2 := CopyTo(d, dest + f.rel, f.content, now);
            && Plain(d2, dest) && NoLinksFrom(d2, dest) && dest in d2
            && forall p | !(dest <= p) :: (p in d2 <==> p in d) && (p in d ==> d2[p] == d[p])
  {
    var p := dest + f.rel;
    PlainBelow(d, dest, p);
    CopyPlain(d, p, f.content, now);
    var up := p[..|p| - 1];
    assert dest <= up;
    DirsStayBelow(d, dest, up);
    var (d1, d2) := (MakeDirs(d, up), CopyTo(d, p, f.content, now));
    PlainPrefix(d, p, up);
    PlainMakeDirs(d, up);
    PlainStays(d1, d2, dest);
    forall q | dest <= q ensures NoLink(d2, q) { assert NoLink(d1, q); }
  }

  /** Installing to a plain place without links changes nothing elsewhere, but for the directories on
      the way there. */
  lemma {:induction false} InstallStaysBelow(d: Disk, files: seq<Shipped>, dest: Path, now: int)
    requires forall i | 0 <= i < |files| :: files[i].rel != []
    requires Plain(d, dest) && NoLinksFrom(d, dest)
    ensures var d2 := Install(d, files, dest, now);
            && Plain(d2, dest) && NoLinksFrom(d2, dest) && dest in d2
            && (forall p | !(dest <= p) ::
                  && (p in d ==> p in d2 && d2[p] == d[p])
                  && (p in d2 && p !in d ==> p <= dest && d2[p] == Dir))
  {
    if files == [] {
      PlainMakeDirs(d, dest);
      DirsKeepPlain(d, dest, dest);
      forall p ensures (p in d ==> p in MkdirAll(d, dest) && MkdirAll(d, dest)[p] == d[p])
                       && (p in MkdirAll(d, dest) && p !in d ==> p <= dest && MkdirAll(d, dest)[p] == Dir)
      {
        MkdirAllAdds(d, dest, p);
      }
      assert NoLinksFrom(MkdirAll(d, dest), dest) by {
        forall p | dest <= p ensures NoLink(MkdirAll(d, dest), p) { assert NoLink(d, p); }
      }
    } else {
      var n := |files| - 1;
      var d1 := Install(d, files[..n], dest, now);
      InstallStaysBelow(d, files[..n], dest, now);
      CopyStaysBelow(d1, files[n], dest, now);
    }
  }

  /** Not even those, where the way is there already. */
  lemma {:induction false} InstallStaysBelowAncestor(d: Disk, files: seq<Shipped>, at: Path, dest: Path, now: int)
    requires forall i | 0 <= i < |files| :: files[i].rel != []
    requires Plain(d, dest) && NoLinksFrom(d, dest) && at in d && at <= dest
    ensures SameOutside(d, Install(d, files, dest, now), at)
  {
    if files == [] {
      PlainMakeDirs(d, dest);
      forall p ensures at <= p || SameAt(d, MkdirAll(d, dest), p) {
        MkdirAllAdds(d, dest, p);
        if !(at <= p) { MkdirAllStaysBelow(d, at, dest, p); }
      }
    } else {
      var n := |files| - 1;
      var (d1, d2) := (Install(d, files[..n], dest, now), Install(d, files, dest, now));
      InstallStaysBelowAncestor(d, files[..n], at, dest, now);
      InstallStaysBelow(d, files[..n], dest, now);
      CopyStaysBelow(d1, files[n], dest, now);
      forall p ensures at <= p || SameAt(d, d2, p) {
        assert at <= p || (SameAt(d, d1, p) && !(dest <= p));
      }
    }
  }

  /** Regular files of one tree: no two at the same place, none inside another. */
  ghost predicate Tidy(files: seq<Shipped>) {
    && (forall i | 0 <= i < |files| :: files[i].rel != [])
    && (forall i, k | 0 <= i < |files| && 0 <= k < |files| && i != k :: !(files[i].rel <= files[k].rel))
  }

  ghost predicate Holds(d: Disk, dest: Path, files: seq<Shipped>, now: int) {
    && (forall i | 0 <= i < |files| ::
          dest + files[i].rel in d && d[dest + files[i].rel] == File(files[i].content, now))
    && (forall p <- d | dest <= p && d[p] != Dir :: exists i | 0 <= i < |files| :: p == dest + files[i].rel)
  }

  lemma TidyPrefix(files: seq<Shipped>, n: nat)
    requires Tidy(files) && n <= |files|
    ensures Tidy(files[..n])
  {}

  lemma NothingShipped(d: Disk, dest: Path, now: int)
    requires Plain(d, dest) && forall p <- d :: !(dest <= p)
    ensures Holds(Install(d, [], dest, now), dest, [], now)
  {
    PlainMakeDirs(d, dest);
    forall p | p in MkdirAll(d, dest) && dest <= p ensures MkdirAll(d, dest)[p] == Dir { MkdirAllAdds(d, dest, p); }
  }

  lemma ShippedStay(d: Disk, files: seq<Shipped>, dest: Path, now: int)
    requires files != [] && Tidy(files) && Holds(d, dest, files[..|files| - 1], now)
    ensures var (n, p) := (|files| - 1, dest + files[|files| - 1].rel);
            var d2 := MkdirAll(d, p[..|p| - 1])[p := File(files[n].content, now)];
            forall i | 0 <= i < |files| ::
              dest + files[i].rel in d2 && d2[dest + files[i].rel] == File(files[i].content, now)
  {
    var n := |files| - 1;
    var p := dest + files[n].rel;
    var up := p[..|p| - 1];
    var d2 := MkdirAll(d, up)[p := File(files[n].content, now)];
    forall i | 0 <= i < |files|
      ensures dest + files[i].rel in d2 && d2[dest + files[i].rel] == File(files[i].content, now)
    {
      if i < n {
        MkdirAllAdds(d, up, dest + files[i].rel);
        assert files[..n][i] == files[i];
        assert dest + files[i].rel != p by {
          assert (dest + files[i].rel)[|dest|..] == files[i].rel && p[|dest|..] == files[n].rel;
        }
      }
    }
  }

  lemma NothingElseShipped(d: Disk, files: seq<Shipped>, dest: Path, now: int)
    requires files != [] && files[|files| - 1].rel != [] && Holds(d, dest, files[..|files| - 1], now)
    ensures var (n, p) := (|files| - 1, dest + files[|files| - 1].rel);
            var d2 := MkdirAll(d, p[..|p| - 1])[p := File(files[n].content, now)];
            forall q <- d2 | dest <= q && d2[q] != Dir :: exists i | 0 <= i < |files| :: q == dest + files[i].rel
  {
    var n := |files| - 1;
    var p := dest + files[n].rel;
    var up := p[..|p| - 1];
    var d2 := MkdirAll(d, up)[p := File(files[n].content, now)];
    forall q | q in d2 && dest <= q && d2[q] != Dir ensures exists i | 0 <= i < |files| :: q == dest + files[i].rel {
      MkdirAllAdds(d, up, q);
      if q != p {
        var i :| 0 <= i < n && q == dest + files[..n][i].rel;
        assert q == dest + files[i].rel;
      }
    }
  }

  lemma NextShipped(d: Disk, files: seq<Shipped>, dest: Path, now: int)
    requires files != [] && Tidy(files) && Plain(d, dest) && NoLinksFrom(d, dest)
    requires Holds(d, dest, files[..|files| - 1], now)
    ensures var f := files[|files| - 1]; Holds(CopyTo(d, dest + f.rel, f.content, now), dest, files, now)
  {
    var n := |files| - 1;
    var p := dest + files[n].rel;
    PlainBelow(d, dest, p);
    CopyPlain(d, p, files[n].content, now);
    ShippedStay(d, files, dest, now);
    NothingElseShipped(d, files, dest, now);
  }

  /** Installed where nothing was, the tree is the shipped one. */
  lemma {:induction false} InstallShips(d: Disk, files: seq<Shipped>, dest: Path, now: int)
    requires Tidy(files) && Plain(d, dest) && NoLinksFrom(d, dest) && forall p <- d :: !(dest <= p)
    ensures Holds(Install(d, files, dest, now), dest, files, now)
  {
    if files == [] {
      NothingShipped(d, dest, now);
    } else {
      var n := |files| - 1;
      TidyPrefix(files, n);
      InstallShips(d, files[..n], dest, now);
      InstallStaysBelow(d, files[..n], dest, now);
      NextShipped(Install(d, files[..n], dest, now), files, dest, now);
    }
  }

  // Copies that fail.

  /** Copying fails after `copied` whole files: with `torn` bytes of the next one, or before that was
      created, when its directory is there already. */
  datatype Fault = Fault(copied: nat, torn: Option<nat>)

  function First(s: string, n: nat): string {
    if n < |s| then s[..n] else s
  }

  /** What is copied before the failure. */
  function Landed(files: seq<Shipped>, f: Fault): (landed: seq<Shipped>)
    requires forall i | 0 <= i < |files| :: files[i].rel != []
    ensures |landed| <= |files| && forall i | 0 <= i < |landed| :: landed[i].rel == files[i].rel
  {
    if f.copied >= |files| then files else
    var whole := files[..f.copied];
    match f.torn
    case None => whole
    case Some(n) =>
      var next := files[f.copied];
      whole + [next.(content := First(next.content, n))]
  }

  /** No byte was lost: nothing failed, or only the close of the last file. */
  predicate Arrived(files: seq<Shipped>, f: Fault) {
    f.copied >= |files|
    || (f.copied == |files| - 1 && f.torn.Some? && f.torn.value >= |files[f.copied].content|)
  }

  lemma LandedIsTidy(files: seq<Shipped>, f: Fault)
    requires Tidy(files)
    ensures Tidy(Landed(files, f)) && (Arrived(files, f) ==> Landed(files, f) == files)
  {}

  /** The directory of the next file, below dest. */
  function NextDir(files: seq<Shipped>, f: Fault, dest: Path): (up: Path)
    requires f.copied < |files| && files[f.copied].rel != []
    ensures dest <= up
  {
    var next := dest + files[f.copied].rel;
    next[..|next| - 1]
  }

  /** installPackage, that fails or not. */
  function Copied(d: Disk, files: seq<Shipped>, f: Fault, dest: Path, now: int): Disk
    requires forall i | 0 <= i < |files| :: files[i].rel != []
  {
    var d2 := Install(d, Landed(files, f), dest, now);
    if f.copied >= |files| || f.torn.Some? then d2 else MakeDirs(d2, NextDir(files, f, dest))
  }

  /** Either way, nothing changes elsewhere but for the directories on the way. */
  lemma CopiedStaysBelow(d: Disk, files: seq<Shipped>, f: Fault, dest: Path, now: int)
    requires forall i | 0 <= i < |files| :: files[i].rel != []
    requires Plain(d, dest) && NoLinksFrom(d, dest)
    ensures var d2 := Copied(d, files, f, dest, now);
            && Plain(d2, dest) && NoLinksFrom(d2, dest) && dest in d2
            && (forall p | !(dest <= p) ::
                  && (p in d ==> p in d2 && d2[p] == d[p])
                  && (p in d2 && p !in d ==> p <= dest && d2[p] == Dir))
  {
    var d1 := Install(d, Landed(files, f), dest, now);
    InstallStaysBelow(d, Landed(files, f), dest, now);
    if f.copied < |files| && f.torn.None? { DirsStayBelow(d1, dest, NextDir(files, f, dest)); }
  }

  lemma CopiedStaysBelowAncestor(d: Disk, files: seq<Shipped>, f: Fault, at: Path, dest: Path, now: int)
    requires forall i | 0 <= i < |files| :: files[i].rel != []
    requires Plain(d, dest) && NoLinksFrom(d, dest) && at in d && at <= dest
    ensures SameOutside(d, Copied(d, files, f, dest, now), at)
  {
    var (d1, d2) := (Install(d, Landed(files, f), dest, now), Copied(d, files, f, dest, now));
    InstallStaysBelow(d, Landed(files, f), dest, now);
    InstallStaysBelowAncestor(d, Landed(files, f), at, dest, now);
    if f.copied < |files| && f.torn.None? {
      DirsStayBelow(d1, dest, NextDir(files, f, dest));
      forall p ensures at <= p || SameAt(d, d2, p) {
        assert at <= p || (SameAt(d, d1, p) && !(dest <= p));
      }
    }
  }

  lemma ShipsBesideDir(d: Disk, files: seq<Shipped>, dest: Path, made: Path, now: int)
    requires Tidy(files) && Plain(d, dest) && NoLinksFrom(d, dest) && dest <= made && forall p <- d :: !(dest <= p)
    ensures Holds(MakeDirs(Install(d, files, dest, now), made), dest, files, now)
  {
    var d1 := Install(d, files, dest, now);
    var d2 := MakeDirs(d1, made);
    InstallStaysBelow(d, files, dest, now);
    InstallShips(d, files, dest, now);
    DirsStayBelow(d1, dest, made);
    forall p | p in d2 && dest <= p && d2[p] != Dir ensures exists i | 0 <= i < |files| :: p == dest + files[i].rel {
      assert p in d1 && d1[p] == d2[p];
    }
  }

  /** Where nothing was, the tree is what landed. */
  lemma CopiedHoldsLanded(d: Disk, files: seq<Shipped>, f: Fault, dest: Path, now: int)
    requires Tidy(files) && Plain(d, dest) && NoLinksFrom(d, dest) && forall p <- d :: !(dest <= p)
    ensures Holds(Copied(d, files, f, dest, now), dest, Landed(files, f), now)
  {
    LandedIsTidy(files, f);
    if f.copied >= |files| || f.torn.Some? {
      InstallShips(d, Landed(files, f), dest, now);
    } else {
      ShipsBesideDir(d, Landed(files, f), dest, NextDir(files, f, dest), now);
    }
  }

  lemma JoinedDiffer(dest: Path, a: Path, b: Path)
    ensures dest + a == dest + b <==> a == b
  {
    if dest + a == dest + b { assert a == (dest + a)[|dest|..] && b == (dest + b)[|dest|..]; }
  }

  /** A tree that holds what landed holds what was shipped only if every byte arrived. */
  lemma LandedIsAll(d: Disk, dest: Path, files: seq<Shipped>, f: Fault, now: int, now2: int)
    requires Tidy(files) && Holds(d, dest, Landed(files, f), now) && Holds(d, dest, files, now2)
    ensures Arrived(files, f)
  {
    if f.copied < |files| {
      var landed := Landed(files, f);
      if |landed| < |files| {
        forall i | 0 <= i < |landed| ensures dest + landed[i].rel != dest + files[|landed|].rel {
          JoinedDiffer(dest, landed[i].rel, files[|landed|].rel);
        }
      } else {
        assert dest + landed[f.copied].rel == dest + files[f.copied].rel;
      }
    }
  }

  /** What a tree holds shows below its root. */
  lemma HoldsBelow(d: Disk, d2: Disk, dest: Path, files: seq<Shipped>, now: int)
    requires forall p :: dest <= p ==> SameAt(d, d2, p)
    ensures Holds(d, dest, files, now) ==> Holds(d2, dest, files, now)
  {
    forall i | 0 <= i < |files| ensures SameAt(d, d2, dest + files[i].rel) {
      assert dest <= dest + files[i].rel;
    }
    if Holds(d, dest, files, now) {
      forall p | p in d2 && dest <= p && d2[p] != Dir ensures exists i | 0 <= i < |files| :: p == dest + files[i].rel {
        assert SameAt(d, d2, p);
      }
    }
  }

  // Entries lie in directories.

  ghost predicate Closed(d: Disk, root: Path) {
    forall p <- d :: root < p ==> p[..|p| - 1] in d
  }

  lemma {:induction false} NothingBelow(d: Disk, root: Path, at: Path, p: Path)
    requires Closed(d, root) && root <= at && at !in d && at <= p
    ensures p !in d
    decreases |p|
  {
    if p != at {
      assert at <= p[..|p| - 1] && root < p;
      NothingBelow(d, root, at, p[..|p| - 1]);
    }
  }

  lemma {:induction false} MkdirAllKeepsClosed(d: Disk, root: Path, p: Path)
    requires Closed(d, root) && root in d && root <= p
    ensures Closed(MkdirAll(d, p), root)
    decreases |p|
  {
    if p !in d {
      assert p == root || |root| < |p|;
      var up := p[..|p| - 1];
      MkdirAllKeepsClosed(d, root, up);
      MkdirAllAdds(d, up, up);
    }
  }

  lemma FileKeepsClosed(d: Disk, root: Path, p: Path, node: Node)
    requires Closed(d, root) && root in d && root < p
    ensures var d2 := MkdirAll(d, p[..|p| - 1])[p := node]; Closed(d2, root) && root in d2
  {
    var up := p[..|p| - 1];
    MkdirAllKeepsClosed(d, root, up);
    MkdirAllAdds(d, up, up);
    MkdirAllAdds(d, up, root);
  }

  lemma {:induction false} InstallKeepsClosed(d: Disk, files: seq<Shipped>, root: Path, dest: Path, now: int)
    requires forall i | 0 <= i < |files| :: files[i].rel != []
    requires Plain(d, dest) && NoLinksFrom(d, dest) && Closed(d, root) && root in d && root <= dest
    ensures Closed(Install(d, files, dest, now), root) && root in Install(d, files, dest, now)
  {
    if files == [] {
      PlainMakeDirs(d, dest);
      MkdirAllKeepsClosed(d, root, dest);
      MkdirAllAdds(d, dest, root);
    } else {
      var n := |files| - 1;
      var (d1, p) := (Install(d, files[..n], dest, now), dest + files[n].rel);
      InstallKeepsClosed(d, files[..n], root, dest, now);
      InstallStaysBelow(d, files[..n], dest, now);
      PlainBelow(d1, dest, p);
      CopyPlain(d1, p, files[n].content, now);
      FileKeepsClosed(d1, root, p, File(files[n].content, now));
    }
  }

  lemma DirsKeepClosed(d: Disk, root: Path, dest: Path, made: Path)
    requires Plain(d, dest) && NoLinksFrom(d, dest) && Closed(d, root) && root in d && root <= dest <= made
    ensures Closed(MakeDirs(d, made), root) && root in MakeDirs(d, made)
  {
    PlainBelow(d, dest, made);
    PlainMakeDirs(d, made);
    MkdirAllKeepsClosed(d, root, made);
    MkdirAllAdds(d, made, root);
  }

  lemma CopiedKeepsClosed(d: Disk, files: seq<Shipped>, f: Fault, root: Path, dest: Path, now: int)
    requires forall i | 0 <= i < |files| :: files[i].rel != []
    requires Plain(d, dest) && NoLinksFrom(d, dest) && Closed(d, root) && root in d && root <= dest
    ensures Closed(Copied(d, files, f, dest, now), root) && root in Copied(d, files, f, dest, now)
  {
    InstallStaysBelow(d, Landed(files, f), dest, now);
    InstallKeepsClosed(d, Landed(files, f), root, dest, now);
    if f.copied < |files| && f.torn.None? {
      DirsKeepClosed(Install(d, Landed(files, f), dest, now), root, dest, NextDir(files, f, dest));
    }
  }
}
