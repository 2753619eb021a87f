/** Package views and the staging of a candidate for its compile check. */
module Publishing {
  import opened Text
  import opened Paths
  import opened Links

  const TYPST := "typst"
  const PACKAGES := "packages"
  const FONTS_DIR := "fonts"

  function PackagesIn(dataHome: Path): Path { dataHome + [TYPST, PACKAGES] }

  // packageView.

  /** One link per name, in order, for the namespaces that have a directory. */
  function LinkNames(d: Disk, pkgs: Path, store: Path, allowed: map<string, string>, names: seq<string>): Disk
    requires forall i | 0 <= i < |names| :: names[i] in allowed
  {
    if names == [] then d else
    var n := |names| - 1;
    var d2 := LinkNames(d, pkgs, store, allowed, names[..n]);
    var src := store + [allowed[names[n]]];
    if Real(d2, src) in d2 then Symlink(d2, src, pkgs + [names[n]]) else d2
  }

  function View(d: Disk, view: Path, store: Path, allowed: map<string, string>, names: seq<string>,
                fonts: Option<Path>): Disk
    requires forall i | 0 <= i < |names| :: names[i] in allowed
  {
    var d2 := LinkNames(MakeDirs(d, PackagesIn(view)), PackagesIn(view), store, allowed, names);
    match fonts
    case None => d2
    case Some(dir) => Symlink(d2, dir, view + [FONTS_DIR])
  }

  // compileCheck, up to the compile.

  /** The namespace's other packages, by link. */
  function LinkOthers(d: Disk, published: Path, nsDir: Path, pkg: string, entries: seq<string>): Disk {
    if entries == [] then d else
    var n := |entries| - 1;
    var d2 := LinkOthers(d, published, nsDir, pkg, entries[..n]);
    if entries[n] == pkg then d2 else Symlink(d2, published + [entries[n]], nsDir + [entries[n]])
  }

  datatype Candidate = Candidate(name: string, ns: string, pkg: string, version: string, files: seq<Shipped>)

  predicate Shippable(c: Candidate) {
    forall i | 0 <= i < |c.files| :: c.files[i].rel != []
  }

  /** What the listing of a directory holds. */
  ghost predicate Lists(d: Disk, dir: Path, entries: seq<string>) {
    forall e :: e in entries <==> dir + [e] in d
  }

  function Staged(d: Disk, pkgs: Path, store: Path, c: Candidate, entries: seq<string>, fault: Fault, now: int): Disk
    requires Shippable(c)
  {
    var nsDir := pkgs + [c.name];
    var d2 := MakeDirs(Remove(d, nsDir), nsDir);
    Copied(LinkOthers(d2, store + [c.ns], nsDir, c.pkg, entries), c.files, fault, nsDir + [c.pkg, c.version], now)
  }

  class Stage {
    var disk: Disk

    /** packageView, in a fresh temporary directory. */
    method PackageView(view: Path, store: Path, allowed: map<string, string>, names: seq<string>, fonts: Option<Path>)
      requires forall i | 0 <= i < |names| :: names[i] in allowed
      modifies this
      ensures disk == View(old(disk), view, store, allowed, names, fonts)
    {
      var pkgs := PackagesIn(view);
      disk := MakeDirs(disk, pkgs);
      ghost var made := disk;
      for i := 0 to |names|
        invariant disk == LinkNames(made, pkgs, store, allowed, names[..i])
      {
        var src := store + [allowed[names[i]]];
        assert names[..i + 1][..i] == names[..i];
        if Real(disk, src) in disk {
          disk := Symlink(disk, src, pkgs + [names[i]]);
        }
      }
      assert names[..|names|] == names;
      if fonts.Some? {
        disk := Symlink(disk, fonts.value, view + [FONTS_DIR]);
      }
    }

    /** One copyFile, that fails or not: the directory comes first. */
    method CopyFile(f: Shipped, i: nat, fault: Fault, dest: Path, now: int) returns (ok: bool)
      requires f.rel != []
      modifies this
      ensures ok == (i < fault.copied)
      ensures disk == if ok then CopyTo(old(disk), dest + f.rel, f.content, now)
                      else if fault.torn.None? then MakeDirs(old(disk), (dest + f.rel)[..|dest + f.rel| - 1])
                      else CopyTo(old(disk), dest + f.rel, First(f.content, fault.torn.value), now)
    {
      ok := i < fault.copied;
      if ok {
        disk := CopyTo(disk, dest + f.rel, f.content, now);
      } else if fault.torn.Some? {
        disk := CopyTo(disk, dest + f.rel, First(f.content, fault.torn.value), now);
      } else {
        disk := MakeDirs(disk, (dest + f.rel)[..|dest + f.rel| - 1]);
      }
    }

    /** installPackage: stops at the first copy that fails, and leaves what is there. */
    method InstallPackage(files: seq<Shipped>, dest: Path, now: int, fault: Fault) returns (ok: bool)
      requires forall i | 0 <= i < |files| :: files[i].rel != []
      modifies this
      ensures ok == (fault.copied >= |files|)
      ensures disk == Copied(old(disk), files, fault, dest, now)
    {
      disk := MakeDirs(disk, dest);
      for i := 0 to |files|
        invariant i <= fault.copied && disk == Install(old(disk), files[..i], dest, now)
      {
        assert files[..i + 1][..i] == files[..i];
        ok := CopyFile(files[i], i, fault, dest, now);
        if !ok {
          ghost var landed := Landed(files, fault);
          assert fault.torn.Some? ==> landed[..i] == files[..i];
          return;
        }
      }
      assert files[..|files|] == files;
      ok := true;
    }

    /** The staging half of compileCheck. */
    method StageCandidate(view: Path, store: Path, c: Candidate, entries: seq<string>, now: int, fault: Fault)
        returns (ok: bool)
      requires Shippable(c) && Lists(disk, store + [c.ns], entries)
      modifies this
      ensures ok == (fault.copied >= |c.files|)
      ensures disk == Staged(old(disk), PackagesIn(view), store, c, entries, fault, now)
    {
      var nsDir := PackagesIn(view) + [c.name];
      disk := Remove(disk, nsDir);
      disk := MakeDirs(disk, nsDir);
      ghost var made := disk;
      for i := 0 to |entries|
        invariant disk == LinkOthers(made, store + [c.ns], nsDir, c.pkg, entries[..i])
      {
        assert entries[..i + 1][..i] == entries[..i];
        if entries[i] != c.pkg {
          disk := Symlink(disk, store + [c.ns, entries[i]], nsDir + [entries[i]]);
          assert store + [c.ns, entries[i]] == store + [c.ns] + [entries[i]];
        }
      }
      assert entries[..|entries|] == entries;
      ok := InstallPackage(c.files, nsDir + [c.pkg, c.version], now, fault);
    }
  }

  // What these change.

  /** A directory just made, empty, and not reached through links. */
  ghost predicate Fresh(d: Disk, view: Path) {
    view in d && Plain(d, view) && forall p <- d :: !(view < p)
  }

  /** A name whose namespace has a directory. */
  predicate IsLinked(d: Disk, pkgs: Path, store: Path, allowed: map<string, string>, names: seq<string>, p: Path) {
    |p| == |pkgs| + 1 && pkgs <= p && p[|pkgs|] in names && p[|pkgs|] in allowed && store + [allowed[p[|pkgs|]]] in d
  }

  /** At p: directly in pkgs a link for each of `names` that has a directory and nothing else; elsewhere
      what was there. */
  predicate LinkedAt(d: Disk, d2: Disk, pkgs: Path, store: Path, allowed: map<string, string>, names: seq<string>,
                     p: Path) {
    if pkgs < p then
      && (p in d2 <==> IsLinked(d, pkgs, store, allowed, names, p))
      && (p in d2 ==> d2[p] == Link(store + [allowed[p[|pkgs|]]]))
    else
      SameAt(d, d2, p)
  }

  ghost predicate HoldsLinks(d: Disk, d2: Disk, pkgs: Path, store: Path, allowed: map<string, string>,
                             names: seq<string>) {
    forall p :: LinkedAt(d, d2, pkgs, store, allowed, names, p)
  }

  lemma NotBelow(pkgs: Path, store: Path, ns: string)
    requires !(pkgs <= store) && !(store <= pkgs)
    ensures !(pkgs <= store + [ns])
  {
    assert (store + [ns])[..|store|] == store;
  }

  lemma OneName(d: Disk, pkgs: Path, store: Path, allowed: map<string, string>, names: seq<string>, p: Path)
    requires names != [] && names[|names| - 1] in allowed && pkgs < p
    ensures var n := |names| - 1;
      IsLinked(d, pkgs, store, allowed, names, p) <==>
      IsLinked(d, pkgs, store, allowed, names[..n], p) || (p == pkgs + [names[n]] && store + [allowed[names[n]]] in d)
  {
    assert names == names[..|names| - 1] + [names[|names| - 1]];
    if |p| == |pkgs| + 1 { assert p == pkgs + [p[|pkgs|]]; }
  }

  lemma LinksKeepPlain(d: Disk, d2: Disk, pkgs: Path, store: Path, allowed: map<string, string>, names: seq<string>)
    requires Plain(d, pkgs) && HoldsLinks(d, d2, pkgs, store, allowed, names)
    ensures Plain(d2, pkgs)
  {
    forall q | q <= pkgs && NoLink(d, q) ensures NoLink(d2, q) {
      assert LinkedAt(d, d2, pkgs, store, allowed, names, q);
    }
    PlainStays(d, d2, pkgs);
  }

  lemma SrcIsReal(d: Disk, d2: Disk, pkgs: Path, store: Path, allowed: map<string, string>, names: seq<string>,
                  src: Path)
    requires Plain(d, store) && NoLinksFrom(d, store) && store <= src && !(pkgs <= src)
    requires HoldsLinks(d, d2, pkgs, store, allowed, names)
    ensures Real(d2, src) == src
  {
    PlainBelow(d, store, src);
    forall q | q <= src && NoLink(d, q) ensures NoLink(d2, q) {
      assert LinkedAt(d, d2, pkgs, store, allowed, names, q);
    }
    PlainStays(d, d2, src);
    PlainIsReal(d2, src);
  }

  lemma NextLink(d: Disk, d2: Disk, pkgs: Path, store: Path, allowed: map<string, string>, names: seq<string>)
    requires names != [] && Distinct(names) && names[|names| - 1] in allowed
    requires Plain(d, pkgs) && Plain(d, store) && NoLinksFrom(d, store) && !(pkgs <= store) && !(store <= pkgs)
    requires HoldsLinks(d, d2, pkgs, store, allowed, names[..|names| - 1])
    ensures var src := store + [allowed[names[|names| - 1]]];
            var d3 := if Real(d2, src) in d2 then Symlink(d2, src, pkgs + [names[|names| - 1]]) else d2;
            HoldsLinks(d, d3, pkgs, store, allowed, names)
  {
    var n := |names| - 1;
    var src := store + [allowed[names[n]]];
    var at := pkgs + [names[n]];
    NotBelow(pkgs, store, allowed[names[n]]);
    SrcIsReal(d, d2, pkgs, store, allowed, names[..n], src);
    LinksKeepPlain(d, d2, pkgs, store, allowed, names[..n]);
    assert at[..|at| - 1] == pkgs;
    PlainSymlink(d2, src, at);
    assert LinkedAt(d, d2, pkgs, store, allowed, names[..n], src);
    assert LinkedAt(d, d2, pkgs, store, allowed, names[..n], at) && at !in d2;
    var d3 := if src in d then d2[at := Link(src)] else d2;
    forall p ensures LinkedAt(d, d3, pkgs, store, allowed, names, p) {
      assert LinkedAt(d, d2, pkgs, store, allowed, names[..n], p);
      if pkgs < p { OneName(d, pkgs, store, allowed, names, p); }
    }
  }

  lemma {:induction false} LinksExactly(d: Disk, pkgs: Path, store: Path, allowed: map<string, string>,
                                        names: seq<string>)
    requires Distinct(names) && forall i | 0 <= i < |names| :: names[i] in allowed
    requires Plain(d, pkgs) && Plain(d, store) && NoLinksFrom(d, store)
    requires !(pkgs <= store) && !(store <= pkgs) && forall p <- d :: !(pkgs < p)
    ensures HoldsLinks(d, LinkNames(d, pkgs, store, allowed, names), pkgs, store, allowed, names)
  {
    if names != [] {
      var n := |names| - 1;
      var d2 := LinkNames(d, pkgs, store, allowed, names[..n]);
      assert Distinct(names[..n]);
      LinksExactly(d, pkgs, store, allowed, names[..n]);
      NextLink(d, d2, pkgs, store, allowed, names);
    }
  }

  /** Neither path is below the other. */
  predicate Apart(a: Path, b: Path) { !(a <= b) && !(b <= a) }

  /** The real store: not reached through links, and holding none. */
  ghost predicate RealStore(d: Disk, store: Path) {
    Plain(d, store) && NoLinksFrom(d, store)
  }

  lemma DirsOfView(d: Disk, view: Path)
    requires Fresh(d, view)
    ensures var d2 := MakeDirs(d, PackagesIn(view));
            && SameOutside(d, d2, view) && Plain(d2, PackagesIn(view)) && PackagesIn(view) in d2
            && forall p <- d2 :: !(PackagesIn(view) < p) && (view < p ==> d2[p] == Dir)
  {
    var pkgs := PackagesIn(view);
    forall q | view <= q ensures NoLink(d, q) {
      if q in d { assert q == view; }
    }
    PlainBelow(d, view, pkgs);
    PlainMakeDirs(d, pkgs);
    DirsKeepPlain(d, pkgs, pkgs);
    forall q ensures (q in d ==> q in MkdirAll(d, pkgs) && MkdirAll(d, pkgs)[q] == d[q])
      && (q in MkdirAll(d, pkgs) && q !in d ==> q <= pkgs && MkdirAll(d, pkgs)[q] == Dir && view <= q)
      && pkgs in MkdirAll(d, pkgs)
    {
      MkdirAllAdds(d, pkgs, q);
      if !(view <= q) { MkdirAllStaysBelow(d, view, pkgs, q); }
    }
  }

  lemma ApartBelow(view: Path, store: Path, p: Path)
    requires Apart(view, store) && view <= p
    ensures Apart(p, store)
  {
    Comparable(view, store, p);
  }

  lemma StoreStays(d: Disk, d2: Disk, view: Path, store: Path)
    requires RealStore(d, store) && SameOutside(d, d2, view) && Apart(view, store)
    ensures RealStore(d2, store)
  {
    forall q | store <= q ensures NoLink(d2, q) {
      Comparable(view, store, q);
      assert NoLink(d, q) && SameAt(d, d2, q);
    }
    forall q | q <= store && NoLink(d, q) ensures NoLink(d2, q) {
      assert SameAt(d, d2, q);
    }
    PlainStays(d, d2, store);
  }

  /** What is at a name's place in the view: a link to its namespace, if that has a directory. */
  ghost predicate Shows(d: Disk, d2: Disk, pkgs: Path, store: Path, allowed: map<string, string>, name: string) {
    && (pkgs + [name] in d2 <==> name in allowed && store + [allowed[name]] in d)
    && (pkgs + [name] in d2 ==> d2[pkgs + [name]] == Link(store + [allowed[name]]))
    && pkgs in d2 && forall p <- d2 :: !(pkgs + [name] < p)
  }

  lemma NamesShown(d: Disk, d1: Disk, d2: Disk, view: Path, pkgs: Path, store: Path, allowed: map<string, string>,
                   names: seq<string>, name: string)
    requires SameOutside(d, d1, view) && HoldsLinks(d1, d2, pkgs, store, allowed, names) && view <= pkgs
             && Apart(view, store)
    requires pkgs in d1 && forall n :: n in names <==> n in allowed
    ensures SameOutside(d, d2, view) && Shows(d, d2, pkgs, store, allowed, name)
  {
    var at := pkgs + [name];
    assert LinkedAt(d1, d2, pkgs, store, allowed, names, at) && LinkedAt(d1, d2, pkgs, store, allowed, names, pkgs);
    if name in allowed {
      NotBelow(view, store, allowed[name]);
      assert SameAt(d, d1, store + [allowed[name]]);
    }
    forall p ensures view <= p || SameAt(d, d2, p) {
      assert LinkedAt(d1, d2, pkgs, store, allowed, names, p) && (view <= p || SameAt(d, d1, p));
    }
    forall p | p in d2 ensures !(at < p) {
      assert LinkedAt(d1, d2, pkgs, store, allowed, names, p);
    }
  }

  lemma SameShown(d: Disk, d2: Disk, d3: Disk, pkgs: Path, store: Path, allowed: map<string, string>, name: string)
    requires Shows(d, d2, pkgs, store, allowed, name) && forall p :: pkgs <= p ==> SameAt(d2, d3, p)
    ensures Shows(d, d3, pkgs, store, allowed, name)
  {
    assert SameAt(d2, d3, pkgs + [name]) && SameAt(d2, d3, pkgs);
    forall p | p in d3 ensures !(pkgs + [name] < p) {
      assert pkgs <= p ==> SameAt(d2, d3, p);
    }
  }

  lemma FontsLinked(d: Disk, view: Path, dir: Path)
    requires Plain(d, PackagesIn(view))
    ensures var d2 := Symlink(d, dir, view + [FONTS_DIR]);
            && SameOutside(d, d2, view) && Plain(d2, PackagesIn(view))
            && forall p :: PackagesIn(view) <= p ==> SameAt(d, d2, p)
  {
    var (pkgs, at) := (PackagesIn(view), view + [FONTS_DIR]);
    PlainPrefix(d, pkgs, view);
    assert at[..|at| - 1] == view;
    PlainSymlink(d, dir, at);
    assert !(at <= pkgs) by { assert pkgs[|view|] == TYPST && at[|view|] == FONTS_DIR; }
    forall q | q <= pkgs && NoLink(d, q) ensures NoLink(Symlink(d, dir, at), q) {}
    PlainStays(d, Symlink(d, dir, at), pkgs);
  }

  lemma OutsideTwice(d: Disk, d2: Disk, d3: Disk, root: Path)
    requires SameOutside(d, d2, root) && SameOutside(d2, d3, root)
    ensures SameOutside(d, d3, root)
  {
    forall p ensures root <= p || SameAt(d, d3, p) {
      assert root <= p || (SameAt(d, d2, p) && SameAt(d2, d3, p));
    }
  }

  /** The view shows exactly the names whose namespace has a directory, each as a link to it, and
      building it changes nothing outside. */
  lemma ViewShowsExactly(d: Disk, view: Path, store: Path, allowed: map<string, string>, names: seq<string>,
                         fonts: Option<Path>, name: string)
    requires Fresh(d, view) && RealStore(d, store) && Apart(view, store)
    requires Distinct(names) && forall n :: n in names <==> n in allowed
    ensures var d2 := View(d, view, store, allowed, names, fonts);
            SameOutside(d, d2, view) && Plain(d2, PackagesIn(view))
              && Shows(d, d2, PackagesIn(view), store, allowed, name)
  {
    var pkgs := PackagesIn(view);
    var d1 := MakeDirs(d, pkgs);
    DirsOfView(d, view);
    StoreStays(d, d1, view, store);
    ApartBelow(view, store, pkgs);
    LinksExactly(d1, pkgs, store, allowed, names);
    var d2 := LinkNames(d1, pkgs, store, allowed, names);
    LinksKeepPlain(d1, d2, pkgs, store, allowed, names);
    NamesShown(d, d1, d2, view, pkgs, store, allowed, names, name);
    if fonts.Some? {
      FontsLinked(d2, view, fonts.value);
      var d3 := Symlink(d2, fonts.value, view + [FONTS_DIR]);
      OutsideTwice(d, d2, d3, view);
      SameShown(d, d2, d3, pkgs, store, allowed, name);
    }
  }

  lemma FontsNotThere(d: Disk, view: Path)
    requires Fresh(d, view)
    ensures view + ["fonts"] !in MakeDirs(d, PackagesIn(view)) && !(PackagesIn(view) < view + ["fonts"])
  {
    var (pkgs, at) := (PackagesIn(view), view + [FONTS_DIR]);
    assert at[|view|] == FONTS_DIR && pkgs[|view|] == TYPST && view < at;
    forall q | view <= q ensures NoLink(d, q) {
      if q in d { assert q == view; }
    }
    PlainBelow(d, view, pkgs);
    PlainMakeDirs(d, pkgs);
    MkdirAllAdds(d, pkgs, at);
  }

  /** The view shows the caller's fonts, if there are any, and has its namespaces where the compiler looks. */
  lemma FontsAreShown(d: Disk, view: Path, store: Path, allowed: map<string, string>, names: seq<string>,
                      fonts: Option<Path>)
    requires Fresh(d, view) && RealStore(d, store) && Apart(view, store)
    requires Distinct(names) && forall n :: n in names <==> n in allowed
    ensures var (d2, at) := (View(d, view, store, allowed, names, fonts), view + ["fonts"]);
            && (at in d2 <==> fonts.Some?) && (at in d2 ==> d2[at] == Link(fonts.value))
            && PackagesIn(view) == view + ["typst", "packages"]
  {
    var (pkgs, at) := (PackagesIn(view), view + [FONTS_DIR]);
    var d1 := MakeDirs(d, pkgs);
    DirsOfView(d, view);
    StoreStays(d, d1, view, store);
    ApartBelow(view, store, pkgs);
    LinksExactly(d1, pkgs, store, allowed, names);
    var d2 := LinkNames(d1, pkgs, store, allowed, names);
    LinksKeepPlain(d1, d2, pkgs, store, allowed, names);
    FontsNotThere(d, view);
    assert LinkedAt(d1, d2, pkgs, store, allowed, names, at) && at[..|at| - 1] == view;
    PlainPrefix(d2, pkgs, view);
    if fonts.Some? { PlainSymlink(d2, fonts.value, at); }
  }

  // Staging.

  ghost predicate OthersOnly(d: Disk, d2: Disk, nsDir: Path, pkg: string) {
    && Plain(d2, nsDir) && SameOutside(d, d2, nsDir) && (nsDir in d ==> nsDir in d2)
    && forall p :: nsDir + [pkg] <= p ==> SameAt(d, d2, p)
  }

  lemma OneMore(d: Disk, d2: Disk, nsDir: Path, pkg: string, target: Path, entry: string)
    requires OthersOnly(d, d2, nsDir, pkg) && entry != pkg
    ensures OthersOnly(d, Symlink(d2, target, nsDir + [entry]), nsDir, pkg)
  {
    var at := nsDir + [entry];
    var d3 := Symlink(d2, target, at);
    assert at[..|at| - 1] == nsDir;
    PlainSymlink(d2, target, at);
    PlainStays(d2, d3, nsDir);
    Segment(nsDir, pkg, at);
    forall p ensures (nsDir <= p || SameAt(d, d3, p)) && (nsDir + [pkg] <= p ==> SameAt(d, d3, p)) {
      assert (nsDir <= p || SameAt(d, d2, p)) && (nsDir + [pkg] <= p ==> SameAt(d, d2, p));
    }
  }

  lemma {:induction false} OthersLinked(d: Disk, published: Path, nsDir: Path, pkg: string, entries: seq<string>)
    requires Plain(d, nsDir)
    ensures OthersOnly(d, LinkOthers(d, published, nsDir, pkg, entries), nsDir, pkg)
  {
    if entries != [] {
      var n := |entries| - 1;
      OthersLinked(d, published, nsDir, pkg, entries[..n]);
      if entries[n] != pkg {
        var d2 := LinkOthers(d, published, nsDir, pkg, entries[..n]);
        OneMore(d, d2, nsDir, pkg, published + [entries[n]], entries[n]);
      }
    }
  }

  /** From the namespace directory on. */
  lemma CandidateStays(d: Disk, store: Path, nsDir: Path, c: Candidate, entries: seq<string>, fault: Fault, now: int)
    requires Plain(d, nsDir) && nsDir in d && Tidy(c.files) && forall p <- d :: !(nsDir < p)
    ensures var linked := LinkOthers(d, store + [c.ns], nsDir, c.pkg, entries);
            var dest := nsDir + [c.pkg, c.version];
            var d2 := Copied(linked, c.files, fault, dest, now);
            SameOutside(d, d2, nsDir) && Holds(d2, dest, Landed(c.files, fault), now) && Real(d2, dest) == dest
  {
    var (pkgDir, dest) := (nsDir + [c.pkg], nsDir + [c.pkg, c.version]);
    var d1 := LinkOthers(d, store + [c.ns], nsDir, c.pkg, entries);
    OthersLinked(d, store + [c.ns], nsDir, c.pkg, entries);
    forall p | pkgDir <= p ensures p !in d1 && NoLink(d1, p) {
      assert nsDir < p && SameAt(d, d1, p);
    }
    assert pkgDir[..|nsDir|] == nsDir && pkgDir <= dest;
    PlainBelow(d1, pkgDir, dest);
    CopiedStaysBelow(d1, c.files, fault, dest, now);
    CopiedHoldsLanded(d1, c.files, fault, dest, now);
    var d2 := Copied(d1, c.files, fault, dest, now);
    PlainIsReal(d2, dest);
    CopiedStaysBelowAncestor(d1, c.files, fault, nsDir, dest, now);
    OutsideTwice(d, d1, d2, nsDir);
  }

  lemma NameRemoved(d: Disk, pkgs: Path, name: string)
    requires Plain(d, pkgs) && pkgs in d && (pkgs + [name] in d ==> d[pkgs + [name]].Link?)
    ensures Remove(d, pkgs + [name]) == d - {pkgs + [name]} && Plain(d - {pkgs + [name]}, pkgs)
  {
    var at := pkgs + [name];
    assert at[..|at| - 1] == pkgs;
    PlainIsReal(d, pkgs);
    PlainStays(d, d - {at}, pkgs);
  }

  lemma NameMade(d: Disk, pkgs: Path, name: string)
    requires Plain(d, pkgs) && pkgs in d && pkgs + [name] !in d
    ensures MakeDirs(d, pkgs + [name]) == d[pkgs + [name] := Dir] && Plain(d[pkgs + [name] := Dir], pkgs + [name])
  {
    var at := pkgs + [name];
    assert at[..|at| - 1] == pkgs;
    PlainMakeDirs(d, at);
    DirsKeepPlain(d, at, at);
  }

  lemma Swapped(d: Disk, p: Path)
    requires forall q <- d :: !(p < q)
    ensures var d2 := (d - {p})[p := Dir]; SameOutside(d, d2, p) && forall q <- d2 :: !(p < q)
  {}

  /** A link, or nothing, gives way to an empty directory. */
  lemma NameReplaced(d: Disk, pkgs: Path, name: string)
    requires Plain(d, pkgs) && pkgs in d && (pkgs + [name] in d ==> d[pkgs + [name]].Link?)
    requires forall p <- d :: !(pkgs + [name] < p)
    ensures var (nsDir, d2) := (pkgs + [name], MakeDirs(Remove(d, pkgs + [name]), pkgs + [name]));
            Plain(d2, nsDir) && nsDir in d2 && SameOutside(d, d2, nsDir) && forall p <- d2 :: !(nsDir < p)
  {
    NameRemoved(d, pkgs, name);
    NameMade(d - {pkgs + [name]}, pkgs, name);
    Swapped(d, pkgs + [name]);
  }

  /** Once the name's own link is removed, staging changes nothing but the name's directory, and the
      candidate is where the compile will look for it. */
  lemma StagingStaysInView(d: Disk, pkgs: Path, store: Path, c: Candidate, entries: seq<string>, fault: Fault, now: int)
    requires Plain(d, pkgs) && pkgs in d && Tidy(c.files)
    requires pkgs + [c.name] in d ==> d[pkgs + [c.name]].Link?
    requires forall p <- d :: !(pkgs + [c.name] < p)
    ensures var (d2, dest) := (Staged(d, pkgs, store, c, entries, fault, now), pkgs + [c.name] + [c.pkg, c.version]);
            && SameOutside(d, d2, pkgs + [c.name]) && Real(d2, dest) == dest
            && Holds(d2, dest, Landed(c.files, fault), now)
  {
    var nsDir := pkgs + [c.name];
    var d2 := MakeDirs(Remove(d, nsDir), nsDir);
    NameReplaced(d, pkgs, c.name);
    CandidateStays(d2, store, nsDir, c, entries, fault, now);
    var d4 := Staged(d, pkgs, store, c, entries, fault, now);
    OutsideTwice(d, d2, d4, nsDir);
  }

  lemma OutsideAbove(d: Disk, d2: Disk, root: Path, at: Path)
    requires SameOutside(d, d2, at) && root <= at
    ensures SameOutside(d, d2, root)
  {
    forall p ensures root <= p || SameAt(d, d2, p) {
      assert at <= p || SameAt(d, d2, p);
    }
  }

  lemma SameWithout(d: Disk, d2: Disk, root: Path)
    requires SameOutside(d, d2, root)
    ensures RemoveAll(d2, root) == RemoveAll(d, root)
  {
    var (a, b) := (RemoveAll(d, root), RemoveAll(d2, root));
    forall p ensures (p in a <==> p in b) && (p in a ==> a[p] == b[p]) {
      assert root <= p || SameAt(d, d2, p);
    }
    assert a.Keys == b.Keys;
  }

  /** The whole check, view and staging, is gone without a trace once its directory is removed. */
  lemma CheckLeavesNoTrace(d: Disk, view: Path, store: Path, allowed: map<string, string>, names: seq<string>,
                           fonts: Option<Path>, c: Candidate, entries: seq<string>, fault: Fault, now: int)
    requires Fresh(d, view) && RealStore(d, store) && Apart(view, store) && Tidy(c.files)
    requires Distinct(names) && forall n :: n in names <==> n in allowed
    ensures var d2 := View(d, view, store, allowed, names, fonts);
            RemoveAll(Staged(d2, PackagesIn(view), store, c, entries, fault, now), view) == RemoveAll(d, view)
  {
    var pkgs := PackagesIn(view);
    var d2 := View(d, view, store, allowed, names, fonts);
    var d3 := Staged(d2, pkgs, store, c, entries, fault, now);
    ViewShowsExactly(d, view, store, allowed, names, fonts, c.name);
    StagingStaysInView(d2, pkgs, store, c, entries, fault, now);
    OutsideAbove(d2, d3, view, pkgs + [c.name]);
    OutsideTwice(d, d2, d3, view);
    SameWithout(d, d3, view);
  }

  lemma {:induction false} EntriesAreLinked(d: Disk, published: Path, nsDir: Path, pkg: string, entries: seq<string>,
                                            e: string)
    requires Plain(d, nsDir) && nsDir in d && forall p <- d :: !(nsDir < p)
    ensures var (d2, at) := (LinkOthers(d, published, nsDir, pkg, entries), nsDir + [e]);
            && (at in d2 <==> e in entries && e != pkg)
            && (at in d2 ==> d2[at] == Link(published + [e]))
  {
    if entries != [] {
      var (n, at) := (|entries| - 1, nsDir + [e]);
      var (d1, next) := (LinkOthers(d, published, nsDir, pkg, entries[..n]), nsDir + [entries[n]]);
      EntriesAreLinked(d, published, nsDir, pkg, entries[..n], e);
      OthersLinked(d, published, nsDir, pkg, entries[..n]);
      assert next[..|next| - 1] == nsDir && entries == entries[..n] + [entries[n]];
      PlainSymlink(d1, published + [entries[n]], next);
      assert at == next <==> e == entries[n] by { assert at[|nsDir|] == e && next[|nsDir|] == entries[n]; }
    }
  }

  /** Beside the candidate are exactly the other packages that the namespace has published, each as a
      link to what is published. */
  lemma SiblingsAreLinked(d: Disk, pkgs: Path, store: Path, c: Candidate, entries: seq<string>, fault: Fault, now: int,
                          e: string)
    requires Plain(d, pkgs) && pkgs in d && Tidy(c.files) && Apart(pkgs, store)
    requires pkgs + [c.name] in d ==> d[pkgs + [c.name]].Link?
    requires forall p <- d :: !(pkgs + [c.name] < p)
    requires Lists(d, store + [c.ns], entries) && e != c.pkg
    ensures var (d2, at) := (Staged(d, pkgs, store, c, entries, fault, now), pkgs + [c.name] + [e]);
            && (at in d2 <==> store + [c.ns] + [e] in d)
            && (at in d2 ==> d2[at] == Link(store + [c.ns] + [e]))
  {
    var (nsDir, published) := (pkgs + [c.name], store + [c.ns]);
    var d1 := MakeDirs(Remove(d, nsDir), nsDir);
    NameReplaced(d, pkgs, c.name);
    EntriesAreLinked(d1, published, nsDir, c.pkg, entries, e);
    var (d2, pkgDir, dest) := (LinkOthers(d1, published, nsDir, c.pkg, entries), nsDir + [c.pkg],
                               nsDir + [c.pkg, c.version]);
    OthersLinked(d1, published, nsDir, c.pkg, entries);
    forall p | pkgDir <= p ensures NoLink(d2, p) {
      assert nsDir < p && SameAt(d1, d2, p);
    }
    assert pkgDir[..|nsDir|] == nsDir && pkgDir <= dest;
    PlainBelow(d2, pkgDir, dest);
    CopiedStaysBelow(d2, c.files, fault, dest, now);
    var at := nsDir + [e];
    assert at[|nsDir|] == e && dest[|nsDir|] == c.pkg;
  }

  /** Were the link left in place, the same install would land in the published namespace. */
  lemma LeftLinkLeadsIntoStore(d: Disk, view: Path, store: Path, c: Candidate, rel: Path)
    requires var nsDir := PackagesIn(view) + [c.name];
             Plain(d, PackagesIn(view)) && nsDir in d && d[nsDir] == Link(store + [c.ns])
    requires NoLinksFrom(d, store)
    ensures Real(d, PackagesIn(view) + [c.name, c.pkg, c.version] + rel) == store + [c.ns, c.pkg, c.version] + rel
  {
    var nsDir := PackagesIn(view) + [c.name];
    assert nsDir[..|nsDir| - 1] == PackagesIn(view);
    ThroughLink(d, nsDir, [c.pkg, c.version] + rel);
    assert nsDir + ([c.pkg, c.version] + rel) == PackagesIn(view) + [c.name, c.pkg, c.version] + rel;
    assert store + [c.ns] + ([c.pkg, c.version] + rel) == store + [c.ns, c.pkg, c.version] + rel;
  }
}
