/** Namespaces: an id that never changes, the names that point at it, and its members' roles. */
module Namespaces {
  import opened Text
  import opened Names
  import Decimal
  import OAuth

  datatype Role = Owner | Member

  datatype Name = Name(ns: string, primary: bool)

  /** The tables. Members are keyed by namespace and user id; users map a GitHub id to a login. */
  datatype Directory = Directory(
    namespaces: set<string>,
    names: map<string, Name>,
    members: map<(string, string), Role>,
    users: map<int, string>)

  datatype Error =
    InvalidName | NameTaken | NoSuchNamespace | NoSuchUser | AlreadyMember | LastOwner | UnknownRole | InsertFailed

  datatype Outcome = Done | Refused(error: Error)

  /** Which row a query takes when several match. Nothing is assumed of it. */
  type Pick = set<int> -> int

  function UserId(githubId: int): string { "gh:" + Decimal.Print(githubId) }

  function NewId(raw: string): string { "ns-" + raw }

  /** The account of a login: SELECT github_id FROM users WHERE LOWER(github_login) = login. */
  function Lookup(pick: Pick, users: map<int, string>, login: string): Option<int> {
    var found := set g | g in users && OAuth.Lower(users[g]) == login;
    if found == {} then None else Some(pick(found))
  }

  function Owners(members: map<(string, string), Role>, ns: string): set<string> {
    set m | m in members && m.0 == ns && members[m] == Owner :: m.1
  }

  function ParseRole(role: string): Option<Role> {
    if role == "owner" then Some(Owner) else if role == "member" then Some(Member) else None
  }

  // The transactions. A refused one leaves the directory as it was.

  function UpsertUser(d: Directory, githubId: int, login: string): Directory {
    d.(users := d.users[githubId := login])
  }

  /** EnsurePersonalNamespace. */
  function Ensure(d: Directory, githubId: int, raw: string): (Directory, Outcome) {
    var (name, id) := (Derived(githubId), NewId(raw));
    if name in d.names then (d, Done)
    else if id in d.namespaces || (id, UserId(githubId)) in d.members then (d, Refused(InsertFailed))
    else (d.(namespaces := d.namespaces + {id}, names := d.names[name := Name(id, true)],
             members := d.members[(id, UserId(githubId)) := Owner]), Done)
  }

  function Demoted(names: map<string, Name>, ns: string): map<string, Name> {
    map n | n in names :: if names[n].ns == ns then names[n].(primary := false) else names[n]
  }

  function AddNameTo(d: Directory, ns: string, name: string): (Directory, Outcome) {
    if Validate(name) != Claimable then (d, Refused(InvalidName))
    else if ns !in d.namespaces then (d, Refused(NoSuchNamespace))
    else if name in d.names then (d, Refused(NameTaken))
    else (d.(names := Demoted(d.names, ns)[name := Name(ns, true)]), Done)
  }

  function CreateOrganisation(d: Directory, slug: string, raw: string): (Directory, Outcome) {
    var id := NewId(raw);
    if Validate(slug) != Claimable then (d, Refused(InvalidName))
    else if id in d.namespaces then (d, Refused(InsertFailed))
    else if slug in d.names then (d, Refused(NameTaken))
    else (d.(namespaces := d.namespaces + {id}, names := d.names[slug := Name(id, true)]), Done)
  }

  /** The namespace goes with its names and its members. */
  function DeleteOrganisation(d: Directory, slug: string): (Directory, Outcome) {
    if slug !in d.names then (d, Refused(NoSuchNamespace)) else
    var ns := d.names[slug].ns;
    (d.(namespaces := d.namespaces - {ns},
        names := map n | n in d.names && d.names[n].ns != ns :: d.names[n],
        members := map m | m in d.members && m.0 != ns :: d.members[m]), Done)
  }

  function AddMember(pick: Pick, d: Directory, slug: string, login: string, role: string): (Directory, Outcome) {
    if ParseRole(role).None? then (d, Refused(UnknownRole))
    else if slug !in d.names then (d, Refused(NoSuchNamespace)) else
    match Lookup(pick, d.users, OAuth.NormalizeLogin(login))
    case None => (d, Refused(NoSuchUser))
    case Some(g) =>
      var m := (d.names[slug].ns, UserId(g));
      if m in d.members then (d, Refused(AlreadyMember))
      else (d.(members := d.members[m := ParseRole(role).value]), Done)
  }

  predicate WouldStrand(pick: Pick, d: Directory, ns: string, login: string) {
    match Lookup(pick, d.users, login)
    case None => false
    case Some(g) => UserId(g) in Owners(d.members, ns) && |Owners(d.members, ns)| <= 1
  }

  function RemoveMember(pick: Pick, d: Directory, slug: string, login: string): (Directory, Outcome) {
    if slug !in d.names then (d, Refused(NoSuchNamespace)) else
    var (ns, target) := (d.names[slug].ns, OAuth.NormalizeLogin(login));
    if WouldStrand(pick, d, ns, target) then (d, Refused(LastOwner)) else
    match Lookup(pick, d.users, target)
    case None => (d, Refused(NoSuchUser))
    case Some(g) =>
      if (ns, UserId(g)) !in d.members then (d, Refused(NoSuchUser))
      else (d.(members := d.members - {(ns, UserId(g))}), Done)
  }

  function SetRole(pick: Pick, d: Directory, slug: string, login: string, role: string): (Directory, Outcome) {
    if ParseRole(role).None? then (d, Refused(UnknownRole))
    else if slug !in d.names then (d, Refused(NoSuchNamespace)) else
    var (ns, target) := (d.names[slug].ns, OAuth.NormalizeLogin(login));
    if ParseRole(role) == Some(Member) && WouldStrand(pick, d, ns, target) then (d, Refused(LastOwner)) else
    match Lookup(pick, d.users, target)
    case None => (d, Refused(NoSuchUser))
    case Some(g) =>
      if (ns, UserId(g)) !in d.members then (d, Refused(NoSuchUser))
      else (d.(members := d.members[(ns, UserId(g)) := ParseRole(role).value]), Done)
  }

  /** DeleteUser, as far as it reaches here: the users go, their memberships stay. */
  function DeleteUser(d: Directory, login: string): Directory {
    var target := OAuth.NormalizeLogin(login);
    d.(users := map g | g in d.users && OAuth.Lower(d.users[g]) != target :: d.users[g])
  }

  /** The user id of a caller who has not signed in. */
  const ANONYMOUS := "anonymous"

  /** What a caller may import: the built-in, and, signed in, the names of their namespaces. */
  function Allowed(d: Directory, user: string): map<string, string> {
    if user == ANONYMOUS then map[HOUSE := HOUSE] else
    map[HOUSE := HOUSE] + map n | n in d.names && (d.names[n].ns, user) in d.members :: d.names[n].ns
  }

  /** The store. Each method is one transaction; a failing one rolls back. */
  class Registry {
    const pick: Pick
    var namespaces: set<string>
    var names: map<string, Name>
    var members: map<(string, string), Role>
    var users: map<int, string>

    constructor (pick: Pick)
      ensures View() == Directory({}, map[], map[], map[])
    {
      this.pick := pick;
      namespaces, names, members, users := {}, map[], map[], map[];
    }

    ghost function View(): Directory
      reads this
    {
      Directory(namespaces, names, members, users)
    }

    method EnsurePersonalNamespace(githubId: int, raw: string) returns (out: Outcome)
      modifies this
      ensures (View(), out) == Ensure(old(View()), githubId, raw)
      ensures out != Done ==> View() == old(View())
    {
      var name := Derived(githubId);
      if name in names {
        return Done;
      }
      var (id, user) := (NewId(raw), UserId(githubId));
      if id in namespaces {
        return Refused(InsertFailed);
      }
      var (hadSpaces, hadNames) := (namespaces, names);
      namespaces := namespaces + {id};
      names := names[name := Name(id, true)];
      if (id, user) in members {
        namespaces, names := hadSpaces, hadNames;
        return Refused(InsertFailed);
      }
      members := members[(id, user) := Owner];
      out := Done;
    }

    /** The other names of the namespace are demoted first, and come back when the insert fails. */
    method AddName(ns: string, name: string) returns (out: Outcome)
      modifies this
      ensures (View(), out) == AddNameTo(old(View()), ns, name)
      ensures out != Done ==> View() == old(View())
    {
      if Validate(name) != Claimable {
        return Refused(InvalidName);
      }
      if ns !in namespaces {
        return Refused(NoSuchNamespace);
      }
      var had := names;
      names := map n | n in names :: if names[n].ns == ns then names[n].(primary := false) else names[n];
      if name in names {
        names := had;
        return Refused(NameTaken);
      }
      names := names[name := Name(ns, true)];
      out := Done;
    }

    method CreateOrg(slug: string, raw: string) returns (out: Outcome)
      modifies this
      ensures (View(), out) == CreateOrganisation(old(View()), slug, raw)
      ensures out != Done ==> View() == old(View())
    {
      if Validate(slug) != Claimable {
        return Refused(InvalidName);
      }
      var id := NewId(raw);
      if id in namespaces {
        return Refused(InsertFailed);
      }
      var had := namespaces;
      namespaces := namespaces + {id};
      if slug in names {
        namespaces := had;
        return Refused(NameTaken);
      }
      names := names[slug := Name(id, true)];
      out := Done;
    }

    method DeleteOrg(slug: string) returns (out: Outcome)
      modifies this
      ensures (View(), out) == DeleteOrganisation(old(View()), slug)
      ensures out != Done ==> View() == old(View())
    {
      if slug !in names {
        return Refused(NoSuchNamespace);
      }
      var ns := names[slug].ns;
      namespaces := namespaces - {ns};
      names := map n | n in names && names[n].ns != ns :: names[n];
      members := map m | m in members && m.0 != ns :: members[m];
      out := Done;
    }

    method AddOrgMember(slug: string, login: string, role: string) returns (out: Outcome)
      modifies this
      ensures (View(), out) == AddMember(pick, old(View()), slug, login, role)
      ensures out != Done ==> View() == old(View())
    {
      if role != "owner" && role != "member" {
        return Refused(UnknownRole);
      }
      if slug !in names {
        return Refused(NoSuchNamespace);
      }
      var who := Lookup(pick, users, OAuth.NormalizeLogin(login));
      if who.None? {
        return Refused(NoSuchUser);
      }
      var m := (names[slug].ns, UserId(who.value));
      if m in members {
        return Refused(AlreadyMember);
      }
      members := members[m := if role == "owner" then Owner else Member];
      out := Done;
    }

    method WouldStrandNamespace(ns: string, login: string) returns (last: bool)
      ensures last == WouldStrand(pick, View(), ns, login)
    {
      var who := Lookup(pick, users, login);
      if who.None? || UserId(who.value) !in Owners(members, ns) {
        return false;
      }
      last := |Owners(members, ns)| <= 1;
    }

    method RemoveOrgMember(slug: string, login: string) returns (out: Outcome)
      modifies this
      ensures (View(), out) == RemoveMember(pick, old(View()), slug, login)
      ensures out != Done ==> View() == old(View())
    {
      if slug !in names {
        return Refused(NoSuchNamespace);
      }
      var (ns, target) := (names[slug].ns, OAuth.NormalizeLogin(login));
      var last := WouldStrandNamespace(ns, target);
      if last {
        return Refused(LastOwner);
      }
      var who := Lookup(pick, users, target);
      if who.None? || (ns, UserId(who.value)) !in members {
        return Refused(NoSuchUser);
      }
      members := members - {(ns, UserId(who.value))};
      out := Done;
    }

    method SetOrgMemberRole(slug: string, login: string, role: string) returns (out: Outcome)
      modifies this
      ensures (View(), out) == SetRole(pick, old(View()), slug, login, role)
      ensures out != Done ==> View() == old(View())
    {
      if role != "owner" && role != "member" {
        return Refused(UnknownRole);
      }
      if slug !in names {
        return Refused(NoSuchNamespace);
      }
      var (ns, target) := (names[slug].ns, OAuth.NormalizeLogin(login));
      if role == "member" {
        var last := WouldStrandNamespace(ns, target);
        if last {
          return Refused(LastOwner);
        }
      }
      var who := Lookup(pick, users, target);
      if who.None? || (ns, UserId(who.value)) !in members {
        return Refused(NoSuchUser);
      }
      members := members[(ns, UserId(who.value)) := if role == "owner" then Owner else Member];
      out := Done;
    }

    /** The rows are added one by one, over the built-in. */
    method AllowedNamespaces(user: string) returns (allowed: map<string, string>)
      ensures allowed == Allowed(View(), user)
    {
      allowed := map[HOUSE := HOUSE];
      if user == ANONYMOUS {
        return;
      }
      var owned := map n | n in names && (names[n].ns, user) in members :: names[n].ns;
      var left := owned.Keys;
      while left != {}
        invariant left <= owned.Keys
        invariant allowed == map[HOUSE := HOUSE] + map n | n in owned && n !in left :: owned[n]
      {
        var name :| name in left;
        allowed := allowed[name := owned[name]];
        left := left - {name};
      }
      assert (map n | n in owned && n !in left :: owned[n]) == owned;
    }
  }
}
