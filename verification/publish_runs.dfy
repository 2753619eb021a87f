/** What every run of namespace changes and publishes keeps: a published version never changes. */
module PublishRuns {
  import opened Text
  import opened Paths
  import opened Links
  import opened Publishing
  import opened Names
  import opened Namespaces
  import NamespaceRuns
  import Signature

  const MAX_BYTES := 4194304
  const MANIFEST := "typst.toml"

  predicate PackageName(s: string) {
    && s != "" && s[0] != '-' && s[|s| - 1] != '-'
    && (forall i | 0 <= i < |s| :: LowerOrDigit(s[i]) || s[i] == '-')
    && (forall i | 0 < i < |s| :: s[i] == '-' ==> s[i - 1] != '-')
  }

  /** Three groups of digits between two dots. */
  predicate VersionName(s: string) {
    exists i, k | 0 < i && i + 1 < k < |s| - 1 ::
      s[i] == '.' && s[k] == '.' && forall p | 0 <= p < |s| && p != i && p != k :: '0' <= s[p] <= '9'
  }

  function Bytes(files: seq<Shipped>): nat {
    if files == [] then 0 else Bytes(files[..|files| - 1]) + |files[|files| - 1].content|
  }

  predicate Word(w: string) { w != "" && forall i | 0 <= i < |w| :: LowerOrDigit(w[i]) }

  /** Words with a hyphen between two of them. */
  ghost predicate Hyphenated(s: string) {
    exists words: seq<string> :: words != [] && (forall w <- words :: Word(w)) && s == Signature.Join(words, "-")
  }

  predicate Number(s: string) { s != "" && forall i | 0 <= i < |s| :: '0' <= s[i] <= '9' }

  /** Three numbers. */
  ghost predicate Dotted(s: string) {
    exists a, b, c :: Number(a) && Number(b) && Number(c) && s == a + "." + b + "." + c
  }

  lemma WordThenName(w: string, rest: string)
    requires Word(w) && PackageName(rest)
    ensures PackageName(w + "-" + rest)
  {
    var (s, n) := (w + "-" + rest, |w|);
    assert s[0] == w[0] && s[|s| - 1] == rest[|rest| - 1] && s[n] == '-' && s[n - 1] == w[n - 1];
    assert (forall i | 0 <= i < n :: s[i] == w[i]) && forall i | n < i < |s| :: s[i] == rest[i - n - 1];
  }

  lemma {:induction false} JoinedIsName(words: seq<string>)
    requires words != [] && forall w <- words :: Word(w)
    ensures PackageName(Signature.Join(words, "-"))
    decreases |words|
  {
    assert Word(words[0]);
    if |words| > 1 {
      JoinedIsName(words[1..]);
      WordThenName(words[0], Signature.Join(words[1..], "-"));
    }
  }

  lemma {:induction false} NameWords(s: string) returns (words: seq<string>)
    requires PackageName(s)
    ensures words != [] && (forall w <- words :: Word(w)) && s == Signature.Join(words, "-")
    decreases |s|
  {
    var n := FindChar(s, '-', 0);
    NoneBefore(s, '-', 0);
    if n == |s| {
      return [s];
    }
    words := NameWords(s[n + 1..]);
    assert s == s[..n] + "-" + s[n + 1..] && ([s[..n]] + words)[1..] == words;
    words := [s[..n]] + words;
  }

  lemma PackageExactly(s: string)
    ensures PackageName(s) <==> Hyphenated(s)
  {
    if PackageName(s) { var words := NameWords(s); }
    if words: seq<string> :| words != [] && (forall w <- words :: Word(w)) && s == Signature.Join(words, "-") {
      JoinedIsName(words);
    }
  }

  lemma NumberAt(s: string, i: nat, k: nat)
    requires i < k <= |s| && forall p | i <= p < k :: '0' <= s[p] <= '9'
    ensures Number(s[i..k])
  {}

  lemma TwoDots(s: string, i: nat, k: nat) returns (a: string, b: string, c: string)
    requires 0 < i && i + 1 < k < |s| - 1 && s[i] == '.' && s[k] == '.'
    requires forall p | 0 <= p < |s| && p != i && p != k :: '0' <= s[p] <= '9'
    ensures Number(a) && Number(b) && Number(c) && s == a + "." + b + "." + c
  {
    NumberAt(s, 0, i);
    NumberAt(s, i + 1, k);
    NumberAt(s, k + 1, |s|);
    a, b, c := s[0..i], s[i + 1..k], s[k + 1..|s|];
  }

  lemma ThreeNumbers(a: string, b: string, c: string)
    requires Number(a) && Number(b) && Number(c)
    ensures VersionName(a + "." + b + "." + c)
  {
    var (s, i, k) := (a + "." + b + "." + c, |a|, |a| + 1 + |b|);
    assert s[i] == '.' && s[k] == '.';
    forall p | 0 <= p < |s| && p != i && p != k ensures '0' <= s[p] <= '9' {
      assert s[p] == if p < i then a[p] else if p < k then b[p - i - 1] else c[p - k - 1];
    }
  }

  lemma VersionExactly(s: string)
    ensures VersionName(s) <==> Dotted(s)
  {
    if i, k :| 0 < i && i + 1 < k < |s| - 1 && s[i] == '.' && s[k] == '.'
               && forall p | 0 <= p < |s| && p != i && p != k :: '0' <= s[p] <= '9' {
      var a, b, c := TwoDots(s, i, k);
    }
    if a, b, c :| Number(a) && Number(b) && Number(c) && s == a + "." + b + "." + c {
      ThreeNumbers(a, b, c);
    }
  }

  /** The bytes of a list of files are those of its parts. */
  lemma {:induction false} BytesAdd(a: seq<Shipped>, b: seq<Shipped>)
    ensures Bytes(a + b) == Bytes(a) + Bytes(b) && (|b| == 1 ==> Bytes(b) == |b[0].content|)
    decreases |b|
  {
    if b == [] {
      assert a + b == a;
    } else {
      var n := |b| - 1;
      BytesAdd(a, b[..n]);
      assert (a + b)[..|a + b| - 1] == a + b[..n];
    }
  }

  /** namespaceForPublish. */
  function NamespaceForPublish(d: Directory, user: string, name: string): Option<string> {
    if name == HOUSE || name !in Allowed(d, user) then None else
    var ns := Allowed(d, user)[name];
    if (ns, user) in d.members && d.members[(ns, user)] == Owner then Some(ns) else None
  }

  datatype Key = Key(ns: string, pkg: string, version: string)

  function Place(store: Path, k: Key): Path { store + [k.ns, k.pkg, k.version] }

  datatype State = State(ns: NamespaceRuns.State, disk: Disk, published: set<Key>)

  /** `compiles` is the verdict of the check, `fault` how the copying fails, if it does. */
  datatype Op =
    | Change(op: NamespaceRuns.Op)
    | Publish(user: string, name: string, pkg: string, version: string, files: seq<Shipped>, compiles: bool,
              fault: Fault, now: int)

  /** The key a publish writes, None when it is refused. */
  function Target(store: Path, s: State, op: Op): Option<Key>
    requires op.Publish?
  {
    if !PackageName(op.pkg) || !VersionName(op.version) then None
    else if op.user == "" || op.user == ANONYMOUS then None else
    match NamespaceForPublish(s.ns.d, op.user, op.name)
    case None => None
    case Some(ns) =>
      var k := Key(ns, op.pkg, op.version);
      if Bytes(op.files) > MAX_BYTES || !(exists i | 0 <= i < |op.files| :: op.files[i].rel == [MANIFEST]) then None
      else if Real(s.disk, Place(store, k)) in s.disk || !op.compiles then None
      else Some(k)
  }

  predicate WellShipped(op: Op) {
    op.Publish? ==> forall i | 0 <= i < |op.files| :: op.files[i].rel != []
  }

  function Step(store: Path, pick: Pick, s: State, op: Op): State
    requires WellShipped(op)
  {
    match op
    case Change(change) => s.(ns := NamespaceRuns.Step(pick, s.ns, change))
    case Publish(_, _, _, _, files, _, fault, now) =>
      match Target(store, s, op)
      case None => s
      case Some(k) =>
        s.(disk := Copied(s.disk, files, fault, Place(store, k), now), published := s.published + {k})
  }

  function Run(store: Path, pick: Pick, s: State, ops: seq<Op>): State
    requires forall i | 0 <= i < |ops| :: WellShipped(ops[i])
    decreases |ops|
  {
    if ops == [] then s else Run(store, pick, Step(store, pick, s, ops[0]), ops[1..])
  }

  /** The store holds no links, its entries lie in directories, and every published version is in it. */
  ghost predicate Inv(store: Path, s: State) {
    && RealStore(s.disk, store) && store in s.disk && HOUSE !in s.ns.d.namespaces && NamespaceRuns.Inv(s.ns)
    && Closed(s.disk, store) && forall k <- s.published :: Place(store, k) in s.disk
  }

  /** The names a caller may publish under are exactly those of the namespaces they own, house apart;
      and no such namespace is the built-in. */
  lemma OwnersMayPublishExactly(store: Path, s: State, user: string, name: string, ns: string)
    requires Inv(store, s)
    ensures var d := s.ns.d;
            NamespaceForPublish(d, user, name) == Some(ns)
            <==>
              && user != ANONYMOUS && name != HOUSE && name in d.names && d.names[name].ns == ns
              && NamespaceRuns.Owns(d, ns, user)
    ensures NamespaceForPublish(s.ns.d, user, name) == Some(ns) ==> ns in s.ns.d.namespaces && ns != HOUSE
  {}

  lemma PlacePlain(store: Path, s: State, k: Key)
    requires Inv(store, s)
    ensures Plain(s.disk, Place(store, k)) && NoLinksFrom(s.disk, Place(store, k))
            && Real(s.disk, Place(store, k)) == Place(store, k)
  {
    PlainBelow(s.disk, store, Place(store, k));
    PlainIsReal(s.disk, Place(store, k));
    forall p | Place(store, k) <= p ensures NoLink(s.disk, p) { assert store <= p; }
  }

  /** A publish is accepted, for the namespace behind the name, exactly when package and version are well
      formed, the caller owns that namespace, the files are at most four mebibytes and hold a manifest,
      nothing is at the place yet, and the candidate compiles. Otherwise nothing changes. */
  lemma PublishExactly(store: Path, pick: Pick, s: State, op: Op, k: Key)
    requires Inv(store, s) && op.Publish? && WellShipped(op)
    ensures var d := s.ns.d;
            Target(store, s, op) == Some(k) <==>
              && k.pkg == op.pkg && k.version == op.version && Hyphenated(op.pkg) && Dotted(op.version)
              && op.user != "" && op.user != ANONYMOUS && op.name != "house"
              && op.name in d.names && d.names[op.name].ns == k.ns && NamespaceRuns.Owns(d, k.ns, op.user)
              && Bytes(op.files) <= 4194304 && (exists i | 0 <= i < |op.files| :: op.files[i].rel == ["typst.toml"])
              && Place(store, k) !in s.disk && op.compiles
    ensures Target(store, s, op).None? ==> Step(store, pick, s, op) == s
  {
    PackageExactly(op.pkg);
    VersionExactly(op.version);
    OwnersMayPublishExactly(store, s, op.user, op.name, k.ns);
    PlacePlain(store, s, k);
  }

  lemma OnlyOwnersPublish(store: Path, s: State, op: Op)
    requires Inv(store, s) && op.Publish? && Target(store, s, op).Some?
    ensures var k := Target(store, s, op).value;
            NamespaceRuns.Owns(s.ns.d, k.ns, op.user) && k.ns in s.ns.d.namespaces && k.ns != HOUSE
  {
    OwnersMayPublishExactly(store, s, op.user, op.name, Target(store, s, op).value.ns);
  }

  /** What a publish changes lies at a place where nothing was, but for directories on the way. */
  lemma StepWritesAtTarget(store: Path, pick: Pick, s: State, op: Op)
    requires Inv(store, s) && WellShipped(op) && op.Publish? && Target(store, s, op).Some?
    ensures var (k, d2) := (Target(store, s, op).value, Step(store, pick, s, op).disk);
      && Place(store, k) !in s.disk && Place(store, k) in d2 && RealStore(d2, store)
      && SameOutside(s.disk, d2, store) && Closed(d2, store) && store in d2
      && forall p | !(Place(store, k) <= p) ::
           (p in s.disk ==> p in d2 && d2[p] == s.disk[p])
             && (p in d2 && p !in s.disk ==> p <= Place(store, k) && d2[p] == Dir)
  {
    var k := Target(store, s, op).value;
    var dest := Place(store, k);
    PlacePlain(store, s, k);
    CopiedStaysBelow(s.disk, op.files, op.fault, dest, op.now);
    CopiedStaysBelowAncestor(s.disk, op.files, op.fault, store, dest, op.now);
    var d2 := Copied(s.disk, op.files, op.fault, dest, op.now);
    forall p | store <= p ensures NoLink(d2, p) {
      assert NoLink(s.disk, p);
      if dest <= p { assert NoLinksFrom(d2, dest); }
    }
    forall p | p <= store && NoLink(s.disk, p) ensures NoLink(d2, p) {
      assert store <= p || SameAt(s.disk, d2, p);
    }
    PlainStays(s.disk, d2, store);
    CopiedKeepsClosed(s.disk, op.files, op.fault, store, dest, op.now);
  }

  lemma HouseIsNoNamespace(pick: Pick, s: NamespaceRuns.State, op: NamespaceRuns.Op)
    requires HOUSE !in s.d.namespaces
    ensures HOUSE !in NamespaceRuns.Step(pick, s, op).d.namespaces
  {
    forall raw ensures NewId(raw) != HOUSE { assert NewId(raw)[0] == 'n'; }
  }

  /** Different versions lie apart. */
  lemma PlacesApart(store: Path, a: Key, b: Key)
    requires a != b
    ensures Apart(Place(store, a), Place(store, b))
  {
    var (p, q, n) := (Place(store, a), Place(store, b), |store|);
    assert p[n] == a.ns && p[n + 1] == a.pkg && p[n + 2] == a.version;
    assert q[n] == b.ns && q[n + 1] == b.pkg && q[n + 2] == b.version;
  }

  lemma StepKeepsInv(store: Path, pick: Pick, s: State, op: Op)
    requires Inv(store, s) && WellShipped(op)
    ensures var s2 := Step(store, pick, s, op); Inv(store, s2) && s.published <= s2.published
  {
    if op.Change? {
      HouseIsNoNamespace(pick, s.ns, op.op);
      NamespaceRuns.StepKeepsInv(pick, s.ns, op.op);
    } else if Target(store, s, op).Some? {
      StepWritesAtTarget(store, pick, s, op);
      var (k, s2) := (Target(store, s, op).value, Step(store, pick, s, op));
      forall q | q in s2.published ensures Place(store, q) in s2.disk {
        if q != k {
          PlacesApart(store, q, k);
        }
      }
    }
  }

  lemma StepKeepsPublished(store: Path, pick: Pick, s: State, op: Op, k: Key)
    requires Inv(store, s) && WellShipped(op) && k in s.published
    ensures SameBelow(s.disk, Step(store, pick, s, op).disk, Place(store, k))
  {
    if op.Publish? && Target(store, s, op).Some? {
      var other := Target(store, s, op).value;
      StepWritesAtTarget(store, pick, s, op);
      PlacesApart(store, k, other);
      var (at, dest) := (Place(store, k), Place(store, other));
      forall p ensures at <= p ==> SameAt(s.disk, Step(store, pick, s, op).disk, p) {
        Comparable(at, dest, p);
        assert at <= p && p <= dest ==> at <= dest;
      }
    }
  }

  /** A published version is never altered: not by another publish, a rename, a deletion or a change of
      owners. */
  lemma {:induction false} PublishedNeverChanges(store: Path, pick: Pick, s: State, ops: seq<Op>, k: Key)
    requires Inv(store, s) && k in s.published && forall i | 0 <= i < |ops| :: WellShipped(ops[i])
    ensures k in Run(store, pick, s, ops).published && SameBelow(s.disk, Run(store, pick, s, ops).disk, Place(store, k))
    decreases |ops|
  {
    if ops != [] {
      var s2 := Step(store, pick, s, ops[0]);
      StepKeepsInv(store, pick, s, ops[0]);
      StepKeepsPublished(store, pick, s, ops[0], k);
      PublishedNeverChanges(store, pick, s2, ops[1..], k);
      var d3 := Run(store, pick, s2, ops[1..]).disk;
      forall p ensures Place(store, k) <= p ==> SameAt(s.disk, d3, p) {
        assert Place(store, k) <= p ==> SameAt(s.disk, s2.disk, p) && SameAt(s2.disk, d3, p);
      }
    }
  }

  lemma StepKeepsHouse(store: Path, pick: Pick, s: State, op: Op)
    requires Inv(store, s) && WellShipped(op)
    ensures SameBelow(s.disk, Step(store, pick, s, op).disk, store + [HOUSE])
  {
    if op.Publish? && Target(store, s, op).Some? {
      OnlyOwnersPublish(store, s, op);
      StepWritesAtTarget(store, pick, s, op);
      var (at, k) := (store + [HOUSE], Target(store, s, op).value);
      var dest := Place(store, k);
      forall p ensures at <= p ==> SameAt(s.disk, Step(store, pick, s, op).disk, p) {
        Segment(store, HOUSE, p);
        Segment(store, HOUSE, dest);
        assert dest[|store|] == k.ns && (dest <= p ==> p[|store|] == k.ns) && (at <= p && p <= dest ==> at <= dest);
      }
    }
  }

  /** Publishing never writes into the built-in namespace. */
  lemma {:induction false} HouseIsNeverWritten(store: Path, pick: Pick, s: State, ops: seq<Op>)
    requires Inv(store, s) && forall i | 0 <= i < |ops| :: WellShipped(ops[i])
    ensures SameBelow(s.disk, Run(store, pick, s, ops).disk, store + [HOUSE])
    decreases |ops|
  {
    if ops != [] {
      var s2 := Step(store, pick, s, ops[0]);
      StepKeepsInv(store, pick, s, ops[0]);
      StepKeepsHouse(store, pick, s, ops[0]);
      HouseIsNeverWritten(store, pick, s2, ops[1..]);
      var (at, d3) := (store + [HOUSE], Run(store, pick, s2, ops[1..]).disk);
      forall p ensures at <= p ==> SameAt(s.disk, d3, p) {
        assert at <= p ==> SameAt(s.disk, s2.disk, p) && SameAt(s2.disk, d3, p);
      }
    }
  }

  /** A version appears in the store only by a publish of somebody who owns its namespace then. */
  lemma OnlyOwnersCreate(store: Path, pick: Pick, s: State, op: Op, k: Key)
    requires Inv(store, s) && WellShipped(op) && k !in s.published && k in Step(store, pick, s, op).published
    ensures op.Publish? && NamespaceRuns.Owns(s.ns.d, k.ns, op.user) && k.ns != HOUSE && Place(store, k) !in s.disk
  {
    OnlyOwnersPublish(store, s, op);
    StepWritesAtTarget(store, pick, s, op);
  }

  // Publishes that are cut short.

  /** What a publish leaves at its place. */
  lemma PublishLands(store: Path, pick: Pick, s: State, op: Op)
    requires Inv(store, s) && op.Publish? && Tidy(op.files) && Target(store, s, op).Some?
    ensures var k := Target(store, s, op).value;
            Holds(Step(store, pick, s, op).disk, Place(store, k), Landed(op.files, op.fault), op.now)
  {
    var k := Target(store, s, op).value;
    var dest := Place(store, k);
    PlacePlain(store, s, k);
    forall p | p in s.disk ensures !(dest <= p) {
      if dest <= p { NothingBelow(s.disk, store, dest, p); }
    }
    CopiedHoldsLanded(s.disk, op.files, op.fault, dest, op.now);
  }

  /** A publish puts exactly the shipped files in place if and only if no byte of a copy is lost. */
  lemma PublishShips(store: Path, pick: Pick, s: State, op: Op)
    requires Inv(store, s) && op.Publish? && Tidy(op.files) && Target(store, s, op).Some?
    ensures var k := Target(store, s, op).value;
            Holds(Step(store, pick, s, op).disk, Place(store, k), op.files, op.now) <==> Arrived(op.files, op.fault)
  {
    var (k, d2) := (Target(store, s, op).value, Step(store, pick, s, op).disk);
    PublishLands(store, pick, s, op);
    LandedIsTidy(op.files, op.fault);
    if Holds(d2, Place(store, k), op.files, op.now) {
      LandedIsAll(d2, Place(store, k), op.files, op.fault, op.now, op.now);
    }
  }

  lemma StillShort(d: Disk, d2: Disk, dest: Path, files: seq<Shipped>, f: Fault, now: int, now2: int)
    requires Tidy(files) && !Arrived(files, f) && Holds(d, dest, Landed(files, f), now) && SameBelow(d, d2, dest)
    ensures !Holds(d2, dest, files, now2)
  {
    if Holds(d2, dest, files, now2) {
      forall p | dest <= p ensures SameAt(d2, d, p) { assert SameAt(d, d2, p); }
      HoldsBelow(d2, d, dest, files, now2);
      LandedIsAll(d, dest, files, f, now, now2);
    }
  }

  lemma TakenIsRefused(store: Path, s: State, k: Key, op: Op)
    requires Inv(store, s) && k in s.published && op.Publish?
    ensures Target(store, s, op) != Some(k)
  {
    PlacePlain(store, s, k);
  }

  lemma {:induction false} RunKeepsInv(store: Path, pick: Pick, s: State, ops: seq<Op>)
    requires Inv(store, s) && forall i | 0 <= i < |ops| :: WellShipped(ops[i])
    ensures Inv(store, Run(store, pick, s, ops))
    decreases |ops|
  {
    if ops != [] {
      StepKeepsInv(store, pick, s, ops[0]);
      RunKeepsInv(store, pick, Step(store, pick, s, ops[0]), ops[1..]);
    }
  }

  /** And so it stays: after a short copy no later run has the shipped files there, whenever written,
      and every retry is refused. */
  lemma ShortCopiesAreForGood(store: Path, pick: Pick, s: State, op: Op, ops: seq<Op>, retry: Op, now: int)
    requires Inv(store, s) && op.Publish? && Tidy(op.files) && Target(store, s, op).Some? && retry.Publish?
    requires !Arrived(op.files, op.fault) && forall i | 0 <= i < |ops| :: WellShipped(ops[i])
    ensures var (k, later) := (Target(store, s, op).value, Run(store, pick, Step(store, pick, s, op), ops));
            !Holds(later.disk, Place(store, k), op.files, now) && Target(store, later, retry) != Some(k)
  {
    var (k, s2) := (Target(store, s, op).value, Step(store, pick, s, op));
    var later := Run(store, pick, s2, ops);
    PublishLands(store, pick, s, op);
    StepKeepsInv(store, pick, s, op);
    PublishedNeverChanges(store, pick, s2, ops, k);
    RunKeepsInv(store, pick, s2, ops);
    StillShort(s2.disk, later.disk, Place(store, k), op.files, op.fault, op.now, now);
    TakenIsRefused(store, later, k, retry);
  }

  lemma ExamplePublish() returns (op: Op)
    ensures op.Publish? && op.pkg == "lib" && op.version == "1.0.0" && op.user == "gh:1" && op.name == "acme"
    ensures |op.files| == 2 && op.files[0].rel == [MANIFEST] && Bytes(op.files) == 2 && op.compiles
    ensures Tidy(op.files) && !Arrived(op.files, op.fault)
  {
    var files := [Shipped([MANIFEST], "m"), Shipped(["lib.typ"], "l")];
    assert files[..1] == [files[0]] && files[..1][..0] == [];
    assert Bytes(files[..1]) == 1 && Bytes(files) == 2;
    assert files[0].rel[0][0] == 't' && files[1].rel[0][0] == 'l';
    assert files[0].rel[0] != files[1].rel[0] && Tidy(files);
    op := Publish("gh:1", "acme", "lib", "1.0.0", files, true, Fault(1, None), 0);
  }

  lemma ExampleState() returns (store: Path, s: State)
    ensures Inv(store, s) && forall p <- s.disk :: |p| <= |store|
    ensures "acme" in s.ns.d.names && s.ns.d.names["acme"].ns == "ns-1" && NamespaceRuns.Owns(s.ns.d, "ns-1", "gh:1")
  {
    store := ["store"];
    var d := Directory({"ns-1"}, map["acme" := Name("ns-1", true)], map[("ns-1", "gh:1") := Owner], map[1 := "ada"]);
    s := State(NamespaceRuns.State(d, map["ns-1" := None]), map[[] := Dir, store := Dir], {});
    assert store[..0] == [] && Plain(s.disk, []) && Plain(s.disk, store);
    assert ("ns-1", "gh:1") in d.members && HOUSE[0] == 'h';
    assert NamespaceRuns.Linked(d);
    assert Closed(s.disk, store);
  }

  lemma VersionOne()
    ensures VersionName("1.0.0")
  {
    var (s, i, k) := ("1.0.0", 1, 3);
    assert s[i] == '.' && s[k] == '.' && forall p | 0 <= p < |s| && p != i && p != k :: '0' <= s[p] <= '9';
  }

  lemma ExampleIsAccepted(store: Path, s: State, op: Op)
    requires Inv(store, s) && op.Publish? && op.pkg == "lib" && op.version == "1.0.0" && op.user == "gh:1"
    requires op.name == "acme" && op.name in s.ns.d.names && s.ns.d.names[op.name].ns == "ns-1"
    requires NamespaceRuns.Owns(s.ns.d, "ns-1", "gh:1")
    requires |op.files| == 2 && op.files[0].rel == [MANIFEST] && Bytes(op.files) == 2 && op.compiles
    requires forall p <- s.disk :: |p| <= |store|
    ensures Target(store, s, op) == Some(Key("ns-1", "lib", "1.0.0"))
  {
    assert PackageName("lib");
    VersionOne();
    OwnersMayPublishExactly(store, s, op.user, op.name, "ns-1");
    PlacePlain(store, s, Key("ns-1", "lib", "1.0.0"));
  }

  /** A publish that is accepted and cut short: ada's second file is not copied. */
  lemma OnePublishCutShort(pick: Pick) returns (store: Path, s: State, op: Op)
    ensures Inv(store, s) && op.Publish? && Tidy(op.files) && op.files != []
    ensures Target(store, s, op) == Some(Key("ns-1", "lib", "1.0.0"))
    ensures !Holds(Step(store, pick, s, op).disk, Place(store, Key("ns-1", "lib", "1.0.0")), op.files, op.now)
  {
    store, s := ExampleState();
    op := ExamplePublish();
    ExampleIsAccepted(store, s, op);
    PublishShips(store, pick, s, op);
  }
}
