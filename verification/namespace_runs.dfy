/** What every run of the namespace store guarantees. */
module NamespaceRuns {
  import opened Text
  import opened Names
  import opened Namespaces
  import OAuth

  datatype Op =
    | SignIn(githubId: int, login: string)
    | Provision(githubId: int, raw: string)
    | Rename(ns: string, name: string)
    | Create(slug: string, raw: string)
    | Delete(slug: string)
    | Add(slug: string, login: string, role: string)
    | Remove(slug: string, login: string)
    | Promote(slug: string, login: string, role: string)
    | Forget(login: string)

  /** `origin` remembers every namespace there ever was, and the account it was provisioned for. */
  datatype State = State(d: Directory, origin: map<string, Option<int>>)

  const EMPTY := State(Directory({}, map[], map[], map[]), map[])

  function Born(s: State, d: Directory, id: string, account: Option<int>): State {
    State(d, if id in d.namespaces then s.origin[id := account] else s.origin)
  }

  /** Random ids are new: one that was drawn before changes nothing. */
  function Step(pick: Pick, s: State, op: Op): State {
    match op
    case SignIn(g, login) => s.(d := UpsertUser(s.d, g, login))
    case Provision(g, raw) => if NewId(raw) in s.origin then s else Born(s, Ensure(s.d, g, raw).0, NewId(raw), Some(g))
    case Rename(ns, name) => s.(d := AddNameTo(s.d, ns, name).0)
    case Create(slug, raw) =>
      if NewId(raw) in s.origin then s else Born(s, CreateOrganisation(s.d, slug, raw).0, NewId(raw), None)
    case Delete(slug) => s.(d := DeleteOrganisation(s.d, slug).0)
    case Add(slug, login, role) => s.(d := AddMember(pick, s.d, slug, login, role).0)
    case Remove(slug, login) => s.(d := RemoveMember(pick, s.d, slug, login).0)
    case Promote(slug, login, role) => s.(d := SetRole(pick, s.d, slug, login, role).0)
    case Forget(login) => s.(d := DeleteUser(s.d, login))
  }

  function Run(pick: Pick, s: State, ops: seq<Op>): State
    decreases |ops|
  {
    if ops == [] then s else Run(pick, Step(pick, s, ops[0]), ops[1..])
  }

  // Rows and primary names.

  /** Names and memberships are of live namespaces. */
  ghost predicate Linked(d: Directory) {
    && (forall n <- d.names :: d.names[n].ns in d.namespaces)
    && (forall m <- d.members :: m.0 in d.namespaces)
  }

  /** p gives each namespace the one name of its that is primary. */
  ghost predicate Primaries(d: Directory, p: map<string, string>) {
    && p.Keys == d.namespaces
    && (forall ns <- p :: p[ns] in d.names && d.names[p[ns]].ns == ns)
    && (forall n <- d.names :: d.names[n].ns in p && (d.names[n].primary <==> p[d.names[n].ns] == n))
  }

  /** How the primary names move. */
  function NextPrimaries(pick: Pick, s: State, op: Op, p: map<string, string>): map<string, string> {
    var d2 := Step(pick, s, op).d;
    match op
    case Provision(g, raw) => if d2 == s.d then p else p[NewId(raw) := Derived(g)]
    case Rename(ns, name) => if d2 == s.d then p else p[ns := name]
    case Create(slug, raw) => if d2 == s.d then p else p[NewId(raw) := slug]
    case Delete(slug) => if slug in s.d.names then p - {s.d.names[slug].ns} else p
    case _ => p
  }

  ghost predicate Inv(s: State) {
    Linked(s.d) && s.d.namespaces <= s.origin.Keys
  }

  lemma StepKeepsInv(pick: Pick, s: State, op: Op)
    requires Inv(s)
    ensures Inv(Step(pick, s, op)) && s.origin.Keys <= Step(pick, s, op).origin.Keys
  {}

  lemma NewNamespace(d: Directory, p: map<string, string>, d2: Directory, id: string, name: string)
    requires Linked(d) && Primaries(d, p) && id !in d.namespaces && name !in d.names
    requires d2.namespaces == d.namespaces + {id} && d2.names == d.names[name := Name(id, true)]
    ensures Primaries(d2, p[id := name])
  {}

  lemma Renamed(d: Directory, p: map<string, string>, ns: string, name: string)
    requires Primaries(d, p) && ns in d.namespaces && name !in d.names
    ensures Primaries(d.(names := Demoted(d.names, ns)[name := Name(ns, true)]), p[ns := name])
  {}

  lemma Deleted(d: Directory, p: map<string, string>, slug: string)
    requires Primaries(d, p) && slug in d.names
    ensures Primaries(DeleteOrganisation(d, slug).0, p - {d.names[slug].ns})
  {}

  lemma StepKeepsPrimaries(pick: Pick, s: State, op: Op, p: map<string, string>)
    requires Linked(s.d) && Primaries(s.d, p)
    ensures Primaries(Step(pick, s, op).d, NextPrimaries(pick, s, op, p))
  {
    var d2 := Step(pick, s, op).d;
    match op
    case Provision(g, raw) => if d2 != s.d { NewNamespace(s.d, p, d2, NewId(raw), Derived(g)); }
    case Create(slug, raw) => if d2 != s.d { NewNamespace(s.d, p, d2, NewId(raw), slug); }
    case Rename(ns, name) => if AddNameTo(s.d, ns, name).1 == Done { Renamed(s.d, p, ns, name); }
    case Delete(slug) => if slug in s.d.names { Deleted(s.d, p, slug); }
    case _ =>
  }

  lemma {:induction false} RunKeepsInv(pick: Pick, s: State, ops: seq<Op>)
    requires Inv(s)
    ensures Inv(Run(pick, s, ops)) && s.origin.Keys <= Run(pick, s, ops).origin.Keys
    decreases |ops|
  {
    if ops != [] {
      StepKeepsInv(pick, s, ops[0]);
      RunKeepsInv(pick, Step(pick, s, ops[0]), ops[1..]);
    }
  }

  lemma {:induction false} RunKeepsPrimaries(pick: Pick, s: State, ops: seq<Op>, p: map<string, string>)
    requires Inv(s) && Primaries(s.d, p)
    ensures exists p2 :: Primaries(Run(pick, s, ops).d, p2)
    decreases |ops|
  {
    if ops != [] {
      StepKeepsInv(pick, s, ops[0]);
      StepKeepsPrimaries(pick, s, ops[0], p);
      var s2 := Step(pick, s, ops[0]);
      RunKeepsPrimaries(pick, s2, ops[1..], NextPrimaries(pick, s, ops[0], p));
      var p2 :| Primaries(Run(pick, s2, ops[1..]).d, p2);
      assert Primaries(Run(pick, s, ops).d, p2);
    } else {
      assert Primaries(Run(pick, s, ops).d, p);
    }
  }

  predicate IsPrimary(d: Directory, ns: string, n: string) {
    n in d.names && d.names[n] == Name(ns, true)
  }

  /** In every reachable state names and members belong to live namespaces, and each live namespace has
      exactly one primary name. */
  lemma OnePrimaryName(pick: Pick, ops: seq<Op>)
    ensures var d := Run(pick, EMPTY, ops).d;
      && Linked(d)
      && forall ns <- d.namespaces ::
           (exists n <- d.names :: IsPrimary(d, ns, n))
           && forall n <- d.names, n2 <- d.names :: IsPrimary(d, ns, n) && IsPrimary(d, ns, n2) ==> n == n2
  {
    RunKeepsInv(pick, EMPTY, ops);
    RunKeepsPrimaries(pick, EMPTY, ops, map[]);
    var d := Run(pick, EMPTY, ops).d;
    var p :| Primaries(d, p);
    assert forall ns <- d.namespaces :: p[ns] in d.names && IsPrimary(d, ns, p[ns]);
  }

  // Owners.

  lemma OtherThan(s: set<string>, x: string) returns (y: string)
    requires |s| > 1
    ensures y in s && y != x
  {
    if x in s { assert s == (s - {x}) + {x}; }
    assert |s - {x}| >= |s| - 1;
    y :| y in s - {x};
  }

  /** The guard refuses exactly the removal of the only owner. */
  lemma StrandsExactly(pick: Pick, d: Directory, ns: string, login: string)
    ensures WouldStrand(pick, d, ns, login) <==>
      match Lookup(pick, d.users, login)
      case None => false
      case Some(g) => Owners(d.members, ns) == {UserId(g)}
  {
    match Lookup(pick, d.users, login)
    case None =>
    case Some(g) =>
      var os := Owners(d.members, ns);
      if UserId(g) in os && |os| <= 1 {
        assert os - {UserId(g)} == {} by { assert |os - {UserId(g)}| == |os| - 1; }
        assert os == (os - {UserId(g)}) + {UserId(g)};
      }
  }

  predicate Owns(d: Directory, ns: string, user: string) {
    (ns, user) in d.members && d.members[(ns, user)] == Owner
  }

  ghost predicate HasOwner(d: Directory, ns: string) {
    exists user :: Owns(d, ns, user)
  }

  lemma OwnersAre(d: Directory, ns: string, user: string)
    ensures user in Owners(d.members, ns) <==> Owns(d, ns, user)
  {
    if Owns(d, ns, user) { assert (ns, user) in d.members; }
  }

  /** Taking a user's row, or their ownership, leaves an owner where the guard let it pass. */
  lemma GuardLeavesOwner(pick: Pick, d: Directory, ns: string, login: string, g: int) returns (user: string)
    requires Lookup(pick, d.users, login) == Some(g) && !WouldStrand(pick, d, ns, login) && HasOwner(d, ns)
    ensures Owns(d, ns, user) && user != UserId(g)
  {
    user :| Owns(d, ns, user);
    if user == UserId(g) {
      OwnersAre(d, ns, user);
      user := OtherThan(Owners(d.members, ns), UserId(g));
      OwnersAre(d, ns, user);
    }
  }

  lemma RemoveLeavesOwner(pick: Pick, d: Directory, slug: string, login: string, ns: string)
    requires HasOwner(d, ns)
    ensures HasOwner(RemoveMember(pick, d, slug, login).0, ns)
  {
    var (d2, out) := RemoveMember(pick, d, slug, login);
    var user :| Owns(d, ns, user);
    if out == Done && ns == d.names[slug].ns {
      var g := Lookup(pick, d.users, OAuth.NormalizeLogin(login)).value;
      user := GuardLeavesOwner(pick, d, ns, OAuth.NormalizeLogin(login), g);
    }
    assert Owns(d2, ns, user);
  }

  lemma SetRoleLeavesOwner(pick: Pick, d: Directory, slug: string, login: string, role: string, ns: string)
    requires HasOwner(d, ns)
    ensures HasOwner(SetRole(pick, d, slug, login, role).0, ns)
  {
    var (d2, out) := SetRole(pick, d, slug, login, role);
    var user :| Owns(d, ns, user);
    if out == Done && ns == d.names[slug].ns && ParseRole(role) == Some(Member) {
      var g := Lookup(pick, d.users, OAuth.NormalizeLogin(login)).value;
      user := GuardLeavesOwner(pick, d, ns, OAuth.NormalizeLogin(login), g);
    }
    assert Owns(d2, ns, user);
  }

  lemma StepKeepsOwner(pick: Pick, s: State, op: Op, ns: string)
    requires HasOwner(s.d, ns) && ns in Step(pick, s, op).d.namespaces
    ensures HasOwner(Step(pick, s, op).d, ns)
  {
    match op
    case Remove(slug, login) => RemoveLeavesOwner(pick, s.d, slug, login, ns);
    case Promote(slug, login, role) => SetRoleLeavesOwner(pick, s.d, slug, login, role, ns);
    case _ =>
      var user :| Owns(s.d, ns, user);
      assert Owns(Step(pick, s, op).d, ns, user);
  }

  /** Every live namespace that was provisioned for an account has an owner. */
  ghost predicate PersonalOnesOwned(s: State) {
    forall ns <- s.d.namespaces :: ns in s.origin && s.origin[ns].Some? ==> HasOwner(s.d, ns)
  }

  lemma StepKeepsOwned(pick: Pick, s: State, op: Op)
    requires Inv(s) && PersonalOnesOwned(s)
    ensures PersonalOnesOwned(Step(pick, s, op))
  {
    var s2 := Step(pick, s, op);
    forall ns | ns in s2.d.namespaces && ns in s2.origin && s2.origin[ns].Some? ensures HasOwner(s2.d, ns) {
      if ns in s.d.namespaces {
        StepKeepsOwner(pick, s, op, ns);
      } else {
        assert op.Provision? && Owns(s2.d, ns, UserId(op.githubId));
      }
    }
  }

  /** So whoever ever signed in has, or shares, a namespace that can be published to, unless it was
      deleted. */
  lemma {:induction false} RunKeepsOwned(pick: Pick, s: State, ops: seq<Op>)
    requires Inv(s) && PersonalOnesOwned(s)
    ensures PersonalOnesOwned(Run(pick, s, ops))
    decreases |ops|
  {
    if ops != [] {
      StepKeepsInv(pick, s, ops[0]);
      StepKeepsOwned(pick, s, ops[0]);
      RunKeepsOwned(pick, Step(pick, s, ops[0]), ops[1..]);
    }
  }

  /** A namespace that is gone stays gone. */
  lemma {:induction false} GoneStaysGone(pick: Pick, s: State, ops: seq<Op>, ns: string)
    requires Inv(s) && ns in s.origin && ns !in s.d.namespaces
    ensures ns !in Run(pick, s, ops).d.namespaces
    decreases |ops|
  {
    if ops != [] {
      StepKeepsInv(pick, s, ops[0]);
      GoneStaysGone(pick, Step(pick, s, ops[0]), ops[1..], ns);
    }
  }

  /** A namespace that has an owner has one for as long as it lives. */
  lemma {:induction false} OwnersAreNeverLost(pick: Pick, s: State, ops: seq<Op>, ns: string)
    requires Inv(s) && HasOwner(s.d, ns) && ns in Run(pick, s, ops).d.namespaces
    ensures HasOwner(Run(pick, s, ops).d, ns)
    decreases |ops|
  {
    if ops != [] {
      var s2 := Step(pick, s, ops[0]);
      StepKeepsInv(pick, s, ops[0]);
      if ns in s2.d.namespaces {
        StepKeepsOwner(pick, s, ops[0], ns);
        OwnersAreNeverLost(pick, s2, ops[1..], ns);
      } else {
        GoneStaysGone(pick, s2, ops[1..], ns);
      }
    }
  }

  // Names.

  lemma StepKeepsBinding(pick: Pick, s: State, op: Op, name: string)
    requires Inv(s) && name in s.d.names && s.d.names[name].ns in Step(pick, s, op).d.namespaces
    ensures var d2 := Step(pick, s, op).d; name in d2.names && d2.names[name].ns == s.d.names[name].ns
  {}

  /** A name points at the same namespace for as long as that lives. */
  lemma {:induction false} NamesStayBound(pick: Pick, s: State, ops: seq<Op>, name: string)
    requires Inv(s) && name in s.d.names && s.d.names[name].ns in Run(pick, s, ops).d.namespaces
    ensures var d2 := Run(pick, s, ops).d; name in d2.names && d2.names[name].ns == s.d.names[name].ns
    decreases |ops|
  {
    if ops != [] {
      var s2 := Step(pick, s, ops[0]);
      StepKeepsInv(pick, s, ops[0]);
      if s.d.names[name].ns in s2.d.namespaces {
        StepKeepsBinding(pick, s, ops[0], name);
        NamesStayBound(pick, s2, ops[1..], name);
      } else {
        GoneStaysGone(pick, s2, ops[1..], s.d.names[name].ns);
      }
    }
  }

  /** A stored name was claimable, or is the derived name of the account its namespace was provisioned
      for. */
  predicate NameOk(origin: map<string, Option<int>>, name: string, row: Name) {
    Validate(name) == Claimable
    || (row.ns in origin && origin[row.ns].Some? && name == Derived(origin[row.ns].value))
  }

  ghost predicate NamesOk(s: State) {
    forall n <- s.d.names :: NameOk(s.origin, n, s.d.names[n])
  }

  lemma StepKeepsNames(pick: Pick, s: State, op: Op)
    requires Inv(s) && NamesOk(s)
    ensures NamesOk(Step(pick, s, op))
  {}

  lemma {:induction false} RunKeepsNames(pick: Pick, s: State, ops: seq<Op>)
    requires Inv(s) && NamesOk(s)
    ensures NamesOk(Run(pick, s, ops))
    decreases |ops|
  {
    if ops != [] {
      StepKeepsInv(pick, s, ops[0]);
      StepKeepsNames(pick, s, ops[0]);
      RunKeepsNames(pick, Step(pick, s, ops[0]), ops[1..]);
    }
  }

  /** Nobody ever holds a reserved name; every stored name with the personal prefix is the derived
      name of the account its namespace was provisioned for; and the derived name of an account only
      ever points at the namespace provisioned for that account. */
  lemma ReservedNamesStayFree(pick: Pick, ops: seq<Op>, g: int)
    ensures var s := Run(pick, EMPTY, ops);
      && HOUSE !in s.d.names && PREVIEW !in s.d.names
      && (forall n <- s.d.names | DERIVED_PREFIX <= n ::
            var ns := s.d.names[n].ns;
            ns in s.origin && s.origin[ns].Some? && n == Derived(s.origin[ns].value))
      && (Derived(g) in s.d.names ==>
            s.d.names[Derived(g)].ns in s.origin && s.origin[s.d.names[Derived(g)].ns] == Some(g))
  {
    RunKeepsNames(pick, EMPTY, ops);
    var s := Run(pick, EMPTY, ops);
    var n := Derived(g);
    DerivedNames(g, g);
    if n in s.d.names {
      assert NameOk(s.origin, n, s.d.names[n]);
      DerivedNames(s.origin[s.d.names[n].ns].value, g);
    }
    forall n | n in s.d.names ensures NameOk(s.origin, n, s.d.names[n]) && n != HOUSE && n != PREVIEW {
      if Validate(n) != Claimable { DerivedNames(s.origin[s.d.names[n].ns].value, g); }
    }
  }

  /** What a caller may import: house as itself, and, signed in, exactly the names of the namespaces they
      are in. */
  lemma AllowedExactly(pick: Pick, ops: seq<Op>, user: string, name: string)
    ensures var d := Run(pick, EMPTY, ops).d; var allowed := Allowed(d, user);
      && HOUSE in allowed && allowed[HOUSE] == HOUSE
      && (name in allowed <==>
            name == HOUSE || (user != ANONYMOUS && name in d.names && (d.names[name].ns, user) in d.members))
      && (name in allowed && name != HOUSE ==> allowed[name] == d.names[name].ns && allowed[name] in d.namespaces)
  {
    ReservedNamesStayFree(pick, ops, 0);
    RunKeepsInv(pick, EMPTY, ops);
  }
}
