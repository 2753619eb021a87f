/** Paths as lists of segments, files, and what filepath.Clean, Join and Rel do to them. */
module Paths {

  /** An absolute path without empty, `.` or `..` segments. */
  type Path = seq<string>

  datatype Node = File(content: string, mtime: int) | Dir | Link(target: Path) | Other

  type Disk = map<Path, Node>

  /** The parts of a path string between its slashes. */
  function Parts(path: string): (parts: seq<string>)
    ensures forall i | 0 <= i < |parts| :: '/' !in parts[i]
  {
    if path == "" then [""]
    else
      var rest := Parts(path[1..]);
      if path[0] == '/' then [""] + rest
      else [[path[0]] + rest[0]] + rest[1..]
  }

  lemma {:induction false} PartsOfName(s: string)
    requires '/' !in s
    ensures Parts(s) == [s]
  {
    if s != "" {
      PartsOfName(s[1..]);
      assert [s[0]] + s[1..] == s;
    }
  }

  function Enter(at: Path, part: string): Path {
    if part == "" || part == "." then at
    else if part != ".." then at + [part]
    else if at == [] then []
    else at[..|at| - 1]
  }

  /** Clean(at + "/" + parts), so Join(at, parts). */
  function Walk(at: Path, parts: seq<string>): Path
    decreases |parts|
  {
    if parts == [] then at else Walk(Enter(at, parts[0]), parts[1..])
  }

  /** A cleaned relative path: some `..`, then plain segments. */
  datatype Rel = Rel(ups: nat, down: Path)

  function EnterRel(r: Rel, part: string): Rel {
    if part == "" || part == "." then r
    else if part != ".." then r.(down := r.down + [part])
    else if r.down == [] then r.(ups := r.ups + 1)
    else r.(down := r.down[..|r.down| - 1])
  }

  function CleanFrom(r: Rel, parts: seq<string>): Rel
    decreases |parts|
  {
    if parts == [] then r else CleanFrom(EnterRel(r, parts[0]), parts[1..])
  }

  predicate IsAbs(path: string) { path != "" && path[0] == '/' }

  /** Clean of a relative path. */
  function Clean(path: string): Rel { CleanFrom(Rel(0, []), Parts(path)) }

  lemma CleanOfEmpty()
    ensures Clean("") == Rel(0, [])
  {
    assert Parts("")[1..] == [];
    assert CleanFrom(Rel(0, []), Parts("")) == CleanFrom(EnterRel(Rel(0, []), ""), []);
  }

  function Above(at: Path, ups: nat): Path {
    if ups >= |at| then [] else at[..|at| - ups]
  }

  function Follow(at: Path, r: Rel): Path { Above(at, r.ups) + r.down }

  lemma FollowStep(at: Path, r: Rel, part: string)
    ensures Enter(Follow(at, r), part) == Follow(at, EnterRel(r, part))
  {
    if part == ".." && r.down != [] {
      assert Follow(at, r)[..|Follow(at, r)| - 1] == Above(at, r.ups) + r.down[..|r.down| - 1];
    } else if part == ".." {
      assert Above(at, r.ups + 1) == Enter(Above(at, r.ups), part);
    }
  }

  lemma {:induction false} FollowFrom(at: Path, r: Rel, parts: seq<string>)
    ensures Walk(Follow(at, r), parts) == Follow(at, CleanFrom(r, parts))
    decreases |parts|
  {
    if parts != [] {
      FollowStep(at, r, parts[0]);
      FollowFrom(at, EnterRel(r, parts[0]), parts[1..]);
    }
  }

  /** Joining a relative path is following its cleaned form. */
  lemma JoinFollowsClean(at: Path, path: string)
    ensures Walk(at, Parts(path)) == Follow(at, Clean(path))
  {
    FollowFrom(at, Rel(0, []), Parts(path));
    assert Follow(at, Rel(0, [])) == at;
  }

  /** How many leading segments two paths share. */
  function Common(a: Path, b: Path): (n: nat)
    ensures n <= |a| && n <= |b| && a[..n] == b[..n]
    ensures n < |a| && n < |b| ==> a[n] != b[n]
  {
    if a == [] || b == [] || a[0] != b[0] then 0 else
    var n := Common(a[1..], b[1..]);
    assert a[..n + 1] == [a[0]] + a[1..][..n] && b[..n + 1] == [b[0]] + b[1..][..n];
    1 + n
  }

  /** Rel(base, target), both absolute. */
  function RelTo(base: Path, target: Path): Rel {
    Rel(|base| - Common(base, target), target[Common(base, target)..])
  }

  /** Rel leads back to its target, and climbs exactly when the target is not below the base. */
  lemma {:induction false} RelLeadsBack(base: Path, target: Path)
    ensures Follow(base, RelTo(base, target)) == target
    ensures RelTo(base, target).ups == 0 <==> base <= target
  {
    var n := Common(base, target);
    assert Above(base, |base| - n) == base[..n];
    if n == |base| { assert base == target[..n]; }
  }

  // The disk.

  predicate SameAt(d: Disk, d2: Disk, p: Path) {
    (p in d2 <==> p in d) && (p in d ==> d2[p] == d[p])
  }

  ghost predicate SameBelow(d: Disk, d2: Disk, root: Path) {
    forall p :: root <= p ==> SameAt(d, d2, p)
  }

  ghost predicate SameOutside(d: Disk, d2: Disk, root: Path) {
    forall p :: root <= p || SameAt(d, d2, p)
  }

  /** os.MkdirAll, where no file is in the way. */
  function MkdirAll(d: Disk, p: Path): Disk
    decreases |p|
  {
    if p in d then d
    else if p == [] then d[p := Dir]
    else MkdirAll(d, p[..|p| - 1])[p := Dir]
  }

  /** It makes p, by adding directories on the way there and nothing else. */
  lemma {:induction false} MkdirAllAdds(d: Disk, p: Path, q: Path)
    ensures p in MkdirAll(d, p)
    ensures q in d ==> q in MkdirAll(d, p) && MkdirAll(d, p)[q] == d[q]
    ensures q in MkdirAll(d, p) && q !in d ==> q <= p && MkdirAll(d, p)[q] == Dir
    decreases |p|
  {
    if p !in d && p != [] {
      var up := p[..|p| - 1];
      MkdirAllAdds(d, up, q);
      if q <= up { assert q <= p; }
    }
  }

  /** And only below a directory that is there already. */
  lemma {:induction false} MkdirAllStaysBelow(d: Disk, at: Path, p: Path, q: Path)
    requires at in d && at <= p && !(at <= q)
    ensures q in MkdirAll(d, p) <==> q in d
    decreases |p|
  {
    if p !in d && p != [] {
      assert at == p || |at| < |p|;
      MkdirAllStaysBelow(d, at, p[..|p| - 1], q);
    }
  }

  lemma Comparable(a: Path, b: Path, p: Path)
    ensures a <= p && b <= p ==> a <= b || b <= a
  {
    if a <= p && b <= p { assert a == p[..|a|] && b == p[..|b|]; }
  }

  lemma Segment(at: Path, name: string, p: Path)
    ensures at + [name] <= p <==> |p| > |at| && at <= p && p[|at|] == name
  {
    if at + [name] <= p { assert (at + [name])[|at|] == p[|at|] && at == p[..|at|]; }
  }

  /** os.RemoveAll. */
  function RemoveAll(d: Disk, p: Path): Disk {
    map q | q in d && !(p <= q) :: d[q]
  }
}
