/** The authorization server: the OAuth tables, and the requests that step through them. */
module OAuth {
  import opened Text

  // Lifetimes, in seconds.
  const SESSION_TTL := 600
  const CODE_TTL := 60

  /** What a session, a code and a key all carry forward from one authorize request. */
  datatype Grant = Grant(client: string, redirectUri: string, challenge: string, challengeMethod: string)

  datatype Client = Client(redirectUris: seq<string>, createdAt: int, lastUsedAt: Option<int>)

  datatype Session = Session(grant: Grant, expiresAt: int)

  datatype Code = Code(user: nat, grant: Grant, used: bool, expiresAt: int)

  datatype User = User(githubId: int, login: string)

  /** The tables. Sessions and codes reference clients, codes and keys reference users; a deleted
      parent takes its rows with it. */
  datatype Tables = Tables(
    clients: map<string, Client>,
    sessions: map<string, Session>,
    codes: map<string, Code>,
    users: map<nat, User>,
    keys: map<string, nat>,
    invites: set<string>)

  // The transactions of internal/authdb, as functions on the tables. None: an error, no change.

  function RegisterClientTx(t: Tables, id: string, uris: seq<string>, now: int): Option<Tables> {
    if uris == [] || id in t.clients then None
    else Some(t.(clients := t.clients[id := Client(uris, now, None)]))
  }

  function CreateSessionTx(t: Tables, id: string, g: Grant, now: int): Option<Tables> {
    if id in t.sessions || g.client !in t.clients then None
    else Some(t.(sessions := t.sessions[id := Session(g, now + SESSION_TTL)]))
  }

  /** Reads and deletes; an expired session is deleted too but not returned. */
  function ConsumeSessionTx(t: Tables, id: string, now: int): (Tables, Option<Session>) {
    if id !in t.sessions then (t, None) else
    var row := t.sessions[id];
    (t.(sessions := t.sessions - {id}), if now > row.expiresAt then None else Some(row))
  }

  function MintCodeTx(t: Tables, id: string, user: nat, g: Grant, now: int): Option<Tables> {
    if id in t.codes || g.client !in t.clients || user !in t.users then None
    else Some(t.(codes := t.codes[id := Code(user, g, false, now + CODE_TTL)]))
  }

  /** The SELECT half of ConsumeAuthorizationCode. */
  function SelectCode(t: Tables, id: string, now: int): Option<Code> {
    if id !in t.codes || t.codes[id].used || now > t.codes[id].expiresAt then None else Some(t.codes[id])
  }

  /** The UPDATE half: guarded by used = 0, and recording the client's use with it. */
  function MarkCode(t: Tables, id: string, now: int): Option<Tables> {
    if id !in t.codes || t.codes[id].used then None else
    var row := t.codes[id];
    var marked := t.(codes := t.codes[id := row.(used := true)]);
    Some(if row.grant.client in t.clients
         then marked.(clients := t.clients[row.grant.client := t.clients[row.grant.client].(lastUsedAt := Some(now))])
         else marked)
  }

  function IssueKeyTx(t: Tables, key: string, user: nat): Option<Tables> {
    if key in t.keys || user !in t.users then None else Some(t.(keys := t.keys[key := user]))
  }

  /** Keyed by the GitHub id: a known account refreshes its row, a new one inserts `row`. */
  function UpsertUserTx(t: Tables, row: nat, githubId: int, login: string): Option<Tables> {
    if row in t.users && t.users[row].githubId == githubId then
      Some(t.(users := t.users[row := User(githubId, login)]))
    else if row !in t.users && forall u <- t.users :: t.users[u].githubId != githubId then
      Some(t.(users := t.users[row := User(githubId, login)]))
    else None
  }

  /** Registrations never used and created before the cutoff. */
  function Stale(t: Tables, cutoff: int): set<string> {
    set c | c in t.clients && t.clients[c].lastUsedAt.None? && t.clients[c].createdAt < cutoff
  }

  function DropClients(t: Tables, gone: set<string>): Tables {
    t.(clients := t.clients - gone,
       sessions := map s | s in t.sessions && t.sessions[s].grant.client !in gone :: t.sessions[s],
       codes := map c | c in t.codes && t.codes[c].grant.client !in gone :: t.codes[c])
  }

  function DropUsers(t: Tables, gone: set<nat>): Tables {
    t.(users := t.users - gone,
       codes := map c | c in t.codes && t.codes[c].user !in gone :: t.codes[c],
       keys := map k | k in t.keys && t.keys[k] !in gone :: t.keys[k])
  }

  function ToLower(c: char): char {
    if 'A' <= c <= 'Z' then (c as int + 32) as char else c
  }

  function Lower(s: string): string {
    seq(|s|, i requires 0 <= i < |s| => ToLower(s[i]))
  }

  /** DELETE FROM users WHERE LOWER(github_login) = target. */
  function UsersNamed(t: Tables, target: string): set<nat> {
    set u | u in t.users && Lower(t.users[u].login) == target
  }

  function NormalizeLogin(login: string): string {
    Lower(TrimSpace(login))
  }

  datatype Config = Config(allowedLogins: set<string>, adminLogins: set<string>)

  predicate InviteOnly(cfg: Config) { cfg.allowedLogins != {} || cfg.adminLogins != {} }

  /** loginAllowed. `invites` is None when the invite lookup fails, and then the answer is no. */
  predicate LoginAllowed(cfg: Config, invites: Option<set<string>>, login: string) {
    var l := NormalizeLogin(login);
    l in cfg.adminLogins || l in cfg.allowedLogins ||
    (invites.Some? && (l in invites.value || !InviteOnly(cfg)))
  }

  /** verifyPKCE, over a hash that is left open. */
  predicate VerifyPKCE(hash: string -> string, verifier: string, g: Grant) {
    g.challengeMethod == "S256" && hash(verifier) == g.challenge
  }

  /** The store: each method is one transaction over the tables. */
  class Store {
    var clients: map<string, Client>
    var sessions: map<string, Session>
    var codes: map<string, Code>
    var users: map<nat, User>
    var keys: map<string, nat>
    var invites: set<string>

    ghost function View(): Tables
      reads this
    {
      Tables(clients, sessions, codes, users, keys, invites)
    }

    method RegisterClient(id: string, uris: seq<string>, now: int) returns (ok: bool)
      modifies this
      ensures var r := RegisterClientTx(old(View()), id, uris, now);
              ok == r.Some? && View() == if ok then r.value else old(View())
    {
      if |uris| == 0 || id in clients {
        return false;
      }
      clients := clients[id := Client(uris, now, None)];
      ok := true;
    }

    method CreateAuthorizeSession(id: string, g: Grant, now: int) returns (ok: bool)
      modifies this
      ensures var r := CreateSessionTx(old(View()), id, g, now);
              ok == r.Some? && View() == if ok then r.value else old(View())
    {
      if id in sessions || g.client !in clients {
        return false;
      }
      sessions := sessions[id := Session(g, now + SESSION_TTL)];
      ok := true;
    }

    method ConsumeAuthorizeSession(id: string, now: int) returns (out: Option<Session>)
      modifies this
      ensures (View(), out) == ConsumeSessionTx(old(View()), id, now)
    {
      if id !in sessions {
        return None;
      }
      var row := sessions[id];
      sessions := sessions - {id};
      if now > row.expiresAt {
        return None;
      }
      out := Some(row);
    }

    /** `freshRow` is what AUTOINCREMENT gives next. */
    method UpsertGitHubUser(freshRow: nat, githubId: int, login: string) returns (row: nat)
      requires freshRow !in users
      modifies this
      ensures UpsertUserTx(old(View()), row, githubId, login) == Some(View())
      ensures row in old(users) || row == freshRow
    {
      row := freshRow;
      if u :| u in users && users[u].githubId == githubId {
        row := u;
      }
      users := users[row := User(githubId, login)];
    }

    method MintAuthorizationCode(id: string, user: nat, g: Grant, now: int) returns (ok: bool)
      modifies this
      ensures var r := MintCodeTx(old(View()), id, user, g, now);
              ok == r.Some? && View() == if ok then r.value else old(View())
    {
      if id in codes || g.client !in clients || user !in users {
        return false;
      }
      codes := codes[id := Code(user, g, false, now + CODE_TTL)];
      ok := true;
    }

    /** Unused and unexpired, the code is marked used together with its client, or nothing changes. */
    method ConsumeAuthorizationCode(id: string, now: int) returns (out: Option<Code>)
      modifies this
      ensures out == SelectCode(old(View()), id, now)
      ensures View() == if out.Some? then MarkCode(old(View()), id, now).value else old(View())
    {
      if id !in codes {
        return None;
      }
      var row := codes[id];
      if row.used || now > row.expiresAt {
        return None;
      }
      codes := codes[id := row.(used := true)];
      if row.grant.client in clients {
        clients := clients[row.grant.client := clients[row.grant.client].(lastUsedAt := Some(now))];
      }
      out := Some(row);
    }

    method IssueAPIKey(key: string, user: nat) returns (ok: bool)
      modifies this
      ensures var r := IssueKeyTx(old(View()), key, user);
              ok == r.Some? && View() == if ok then r.value else old(View())
    {
      if key in keys || user !in users {
        return false;
      }
      keys := keys[key := user];
      ok := true;
    }

    method DeleteUnusedClients(cutoff: int) returns (n: nat)
      modifies this
      ensures View() == DropClients(old(View()), Stale(old(View()), cutoff))
      ensures n == |Stale(old(View()), cutoff)|
    {
      var gone := set c | c in clients && clients[c].lastUsedAt.None? && clients[c].createdAt < cutoff;
      n := |gone|;
      clients := clients - gone;
      sessions := map s | s in sessions && sessions[s].grant.client !in gone :: sessions[s];
      codes := map c | c in codes && codes[c].grant.client !in gone :: codes[c];
    }

    method DeleteUser(login: string) returns (ok: bool)
      modifies this
      ensures var target := NormalizeLogin(login);
              var gone := UsersNamed(old(View()), target);
              && ok == (gone != {} || target in old(invites))
              && View() == if ok then DropUsers(old(View()), gone).(invites := old(invites) - {target}) else old(View())
    {
      var target := NormalizeLogin(login);
      var gone := set u | u in users && Lower(users[u].login) == target;
      if gone == {} && target !in invites {
        return false;
      }
      users := users - gone;
      codes := map c | c in codes && codes[c].user !in gone :: codes[c];
      keys := map k | k in keys && keys[k] !in gone :: keys[k];
      invites := invites - {target};
      ok := true;
    }
  }
}
