/** What each change to the namespaces does, told by who has which role under which name. */
module NamespaceActs {
  import opened Text
  import opened Names
  import opened Namespaces
  import opened NamespaceRuns
  import Accounts

  /** A query takes one of the rows that match. */
  ghost predicate TakesARow(pick: Pick) { forall found: set<int> | found != {} :: pick(found) in found }

  /** The login, but for its case and the space around it. */
  predicate SignsInAs(d: Directory, g: int, login: string) {
    g in d.users && Accounts.Alike(d.users[g], TrimSpace(login))
  }

  /** The one account with that login. */
  ghost predicate IsAccount(d: Directory, login: string, g: int) {
    SignsInAs(d, g, login) && forall x | SignsInAs(d, x, login) :: x == g
  }

  function RoleOf(d: Directory, name: string, user: string): Option<Role> {
    if name in d.names && (d.names[name].ns, user) in d.members then Some(d.members[(d.names[name].ns, user)])
    else None
  }

  predicate SameSpace(d: Directory, a: string, b: string) {
    a in d.names && b in d.names && d.names[a].ns == d.names[b].ns
  }

  /** The namespace has this owner and no other. */
  ghost predicate OnlyOwner(d: Directory, name: string, user: string) {
    RoleOf(d, name, user) == Some(Owner) && forall x | RoleOf(d, name, x) == Some(Owner) :: x == user
  }

  // Members.

  lemma LookupExactly(pick: Pick, d: Directory, login: string, g: int)
    requires TakesARow(pick)
    ensures IsAccount(d, login, g) ==> Lookup(pick, d.users, OAuth.NormalizeLogin(login)) == Some(g)
    ensures Lookup(pick, d.users, OAuth.NormalizeLogin(login)) == None <==> forall x :: !SignsInAs(d, x, login)
  {
    var target := OAuth.NormalizeLogin(login);
    var found := set x | x in d.users && OAuth.Lower(d.users[x]) == target;
    forall x | x in d.users ensures x in found <==> SignsInAs(d, x, login) {
      Accounts.LowerExactly(d.users[x], TrimSpace(login));
    }
    if IsAccount(d, login, g) {
      assert g in found && forall x <- found :: x == g;
      assert found == {g} by { forall x ensures x in found <==> x in {g} {} }
    }
    if found != {} { assert SignsInAs(d, pick(found), login); }
  }

  lemma OnlyOwnerExactly(pick: Pick, d: Directory, slug: string, login: string, g: int)
    requires TakesARow(pick) && IsAccount(d, login, g) && slug in d.names
    ensures WouldStrand(pick, d, d.names[slug].ns, OAuth.NormalizeLogin(login)) <==> OnlyOwner(d, slug, UserId(g))
  {
    var (ns, user) := (d.names[slug].ns, UserId(g));
    LookupExactly(pick, d, login, g);
    StrandsExactly(pick, d, ns, OAuth.NormalizeLogin(login));
    forall x ensures x in Owners(d.members, ns) <==> RoleOf(d, slug, x) == Some(Owner) { OwnersAre(d, ns, x); }
    if OnlyOwner(d, slug, user) { assert Owners(d.members, ns) == {user}; }
  }

  /** A member is added, in the role that is named and under every name of the namespace, exactly where the
      role and the namespace exist and the account is no member yet. Nobody else's role changes. */
  lemma AddedExactly(pick: Pick, d: Directory, slug: string, login: string, role: string, g: int)
    requires TakesARow(pick) && IsAccount(d, login, g)
    ensures var (d2, out) := AddMember(pick, d, slug, login, role);
            && out == (if role != "owner" && role != "member" then Refused(UnknownRole)
                       else if slug !in d.names then Refused(NoSuchNamespace)
                       else if RoleOf(d, slug, UserId(g)).Some? then Refused(AlreadyMember) else Done)
            && d2 == d.(members := d2.members)
            && forall name, user :: RoleOf(d2, name, user) ==
                 if out == Done && SameSpace(d, name, slug) && user == UserId(g)
                 then Some(if role == "owner" then Owner else Member)
                 else RoleOf(d, name, user)
  {
    LookupExactly(pick, d, login, g);
  }

  /** A member is removed exactly where there is one, and it is not the only owner. */
  lemma RemovedExactly(pick: Pick, d: Directory, slug: string, login: string, g: int)
    requires TakesARow(pick) && IsAccount(d, login, g)
    ensures var (d2, out) := RemoveMember(pick, d, slug, login);
            && out == (if slug !in d.names then Refused(NoSuchNamespace)
                       else if OnlyOwner(d, slug, UserId(g)) then Refused(LastOwner)
                       else if RoleOf(d, slug, UserId(g)).None? then Refused(NoSuchUser) else Done)
            && d2 == d.(members := d2.members)
            && forall name, user :: RoleOf(d2, name, user) ==
                 if out == Done && SameSpace(d, name, slug) && user == UserId(g) then None else RoleOf(d, name, user)
  {
    LookupExactly(pick, d, login, g);
    if slug in d.names { OnlyOwnerExactly(pick, d, slug, login, g); }
  }

  /** A member's role is set exactly where there is one, and the only owner is not made a member. */
  lemma RoleIsSetExactly(pick: Pick, d: Directory, slug: string, login: string, role: string, g: int)
    requires TakesARow(pick) && IsAccount(d, login, g)
    ensures var (d2, out) := SetRole(pick, d, slug, login, role);
            && out == (if role != "owner" && role != "member" then Refused(UnknownRole)
                       else if slug !in d.names then Refused(NoSuchNamespace)
                       else if role == "member" && OnlyOwner(d, slug, UserId(g)) then Refused(LastOwner)
                       else if RoleOf(d, slug, UserId(g)).None? then Refused(NoSuchUser) else Done)
            && d2 == d.(members := d2.members)
            && forall name, user :: RoleOf(d2, name, user) ==
                 if out == Done && SameSpace(d, name, slug) && user == UserId(g)
                 then Some(if role == "owner" then Owner else Member)
                 else RoleOf(d, name, user)
  {
    LookupExactly(pick, d, login, g);
    if slug in d.names { OnlyOwnerExactly(pick, d, slug, login, g); }
  }

  /** A login that nobody has is refused, and nothing changes. */
  lemma StrangersAreRefused(pick: Pick, d: Directory, slug: string, login: string, role: string)
    requires TakesARow(pick) && slug in d.names && (role == "owner" || role == "member")
    requires forall g :: !SignsInAs(d, g, login)
    ensures AddMember(pick, d, slug, login, role) == RemoveMember(pick, d, slug, login)
            == SetRole(pick, d, slug, login, role) == (d, Refused(NoSuchUser))
  {
    LookupExactly(pick, d, login, 0);
  }

  // Namespaces and names.

  /** A new namespace: one primary name, these members, and all else as it was. */
  ghost predicate Added(d: Directory, d2: Directory, id: string, name: string, owner: Option<string>) {
    && d2.namespaces == d.namespaces + {id} && d2.users == d.users
    && d2.names.Keys == d.names.Keys + {name} && d2.names[name] == Name(id, true)
    && (forall n <- d.names :: d2.names[n] == d.names[n])
    && forall n, user :: RoleOf(d2, n, user) ==
         if n == name then if owner == Some(user) then Some(Owner) else None else RoleOf(d, n, user)
  }

  /** Whoever signs in owns a namespace under their derived name, unless that name is there already. */
  lemma ProvisionedExactly(d: Directory, g: int, raw: string)
    requires Linked(d) && NewId(raw) !in d.namespaces
    ensures var (d2, out) := Ensure(d, g, raw);
            && out == Done
            && if Derived(g) in d.names then d2 == d else Added(d, d2, NewId(raw), Derived(g), Some(UserId(g)))
  {}

  /** An organisation is created exactly under a claimable name that is free. It has no members yet. */
  lemma CreatedExactly(d: Directory, slug: string, raw: string)
    requires Linked(d) && NewId(raw) !in d.namespaces
    ensures var (d2, out) := CreateOrganisation(d, slug, raw);
            && out == (if Validate(slug) != Claimable then Refused(InvalidName)
                       else if slug in d.names then Refused(NameTaken) else Done)
            && if out == Done then Added(d, d2, NewId(raw), slug, None) else d2 == d
  {}

  /** A namespace gets a further name exactly where that is claimable and free. The new name is the primary
      one now; the old ones still lead there, with the same members. */
  lemma RenamedExactly(d: Directory, ns: string, name: string)
    ensures var (d2, out) := AddNameTo(d, ns, name);
            && out == (if Validate(name) != Claimable then Refused(InvalidName)
                       else if ns !in d.namespaces then Refused(NoSuchNamespace)
                       else if name in d.names then Refused(NameTaken) else Done)
            && (out != Done ==> d2 == d)
            && (out == Done ==>
                  && d2 == d.(names := d2.names) && d2.names.Keys == d.names.Keys + {name}
                  && d2.names[name] == Name(ns, true)
                  && forall n <- d.names ::
                       d2.names[n].ns == d.names[n].ns
                         && (d2.names[n].primary <==> d.names[n].primary && d.names[n].ns != ns))
  {}

  /** A deletion takes the namespace, all its names and all its members, and nothing else. */
  lemma DeletedExactly(d: Directory, slug: string)
    ensures var (d2, out) := DeleteOrganisation(d, slug);
            && out == (if slug in d.names then Done else Refused(NoSuchNamespace))
            && (out != Done ==> d2 == d)
            && (out == Done ==>
                  && d2.namespaces == d.namespaces - {d.names[slug].ns} && d2.users == d.users
                  && (forall n :: n in d2.names <==> n in d.names && !SameSpace(d, n, slug))
                  && (forall n <- d2.names :: d2.names[n] == d.names[n])
                  && (forall user :: (d.names[slug].ns, user) !in d2.members)
                  && (forall n, user :: RoleOf(d2, n, user) ==
                        if SameSpace(d, n, slug) then None else RoleOf(d, n, user)))
  {}

  /** Forgetting a login takes exactly the accounts that sign in with it; their memberships stay. */
  lemma ForgottenExactly(d: Directory, login: string)
    ensures var d2 := DeleteUser(d, login);
            && d2 == d.(users := d2.users)
            && (forall g :: g in d2.users <==> g in d.users && !SignsInAs(d, g, login))
            && forall g <- d2.users :: d2.users[g] == d.users[g]
  {
    forall g | g in d.users ensures g in DeleteUser(d, login).users <==> !SignsInAs(d, g, login) {
      Accounts.LowerExactly(d.users[g], TrimSpace(login));
    }
  }
}
