/** The OAuth handlers, each served without interruption: what they do to the store. */
module Handlers {
  import opened Text
  import opened OAuth
  import opened OAuthFlow

  datatype Error =
    | InvalidRequest | InvalidRedirectUri | InvalidClientMetadata | UnknownClient | UnsupportedResponseType
    | SessionNotFound | AccessDenied | UnsupportedGrantType | InvalidGrant | ServerError

  datatype Reply = Done(value: string) | Refused(error: Error)

  /** The tables, with no other request under way. */
  function Alone(t: Tables): State {
    State(t, map[], EMPTY.j)
  }

  method ServeRegister(store: Store, v: Server, uris: seq<string>, authMethod: string, id: string, now: int)
      returns (reply: Reply)
    modifies store
    ensures store.View() == DoRegister(v, Alone(old(store.View())), uris, authMethod, id, now).t
    ensures reply.Done? <==> uris != [] && (forall u <- uris :: v.validUri(u)) && authMethod in {"", "none"}
                             && id !in old(store.clients)
    ensures reply == Refused(InvalidRedirectUri) <==> uris == [] || exists u <- uris :: !v.validUri(u)
    ensures reply == Refused(InvalidClientMetadata) <==>
              uris != [] && (forall u <- uris :: v.validUri(u)) && authMethod !in {"", "none"}
  {
    if |uris| == 0 {
      return Refused(InvalidRedirectUri);
    }
    for i := 0 to |uris|
      invariant forall k | 0 <= k < i :: v.validUri(uris[k])
      invariant store.View() == old(store.View())
    {
      if !v.validUri(uris[i]) {
        return Refused(InvalidRedirectUri);
      }
    }
    assert forall u <- uris :: v.validUri(u);
    var how := if authMethod == "" then "none" else authMethod;
    if how != "none" {
      return Refused(InvalidClientMetadata);
    }
    var ok := store.RegisterClient(id, uris, now);
    return if ok then Done(id) else Refused(ServerError);
  }

  predicate Named(g: Grant) { g.client != "" && g.redirectUri != "" }

  /** The redirect URI is one that the client registered. */
  predicate Listed(t: Tables, g: Grant) {
    Named(g) && g.client in t.clients && g.redirectUri in t.clients[g.client].redirectUris
  }

  predicate Challenged(g: Grant) { g.challenge != "" && g.challengeMethod == "S256" }

  /** /authorize with no other request in between. */
  function AuthorizeUninterrupted(s: State, r: nat, responseType: string, g: Grant, id: string, now: int): State {
    DoAuthorizeStore(DoAuthorizeLookup(s, r, responseType, g), r, id, now)
  }

  method ServeAuthorize(store: Store, responseType: string, g: Grant, id: string, now: int) returns (reply: Reply)
    modifies store
    ensures store.View() == AuthorizeUninterrupted(Alone(old(store.View())), 0, responseType, g, id, now).t
    ensures reply.Done? <==> store.View() != old(store.View())
    ensures reply == Refused(UnknownClient) <==> Named(g) && g.client !in old(store.clients)
    ensures reply == Refused(InvalidRedirectUri) <==>
              Named(g) && g.client in old(store.clients) && !Listed(old(store.View()), g)
    ensures reply == Refused(UnsupportedResponseType) <==> Listed(old(store.View()), g) && responseType != "code"
    ensures reply == Refused(InvalidRequest) <==>
              !Named(g) || (Listed(old(store.View()), g) && responseType == "code" && !Challenged(g))
  {
    if g.client == "" || g.redirectUri == "" {
      return Refused(InvalidRequest);
    }
    if g.client !in store.clients {
      return Refused(UnknownClient);
    }
    if g.redirectUri !in store.clients[g.client].redirectUris {
      return Refused(InvalidRedirectUri);
    }
    if responseType != "code" {
      return Refused(UnsupportedResponseType);
    }
    if g.challenge == "" || g.challengeMethod != "S256" {
      return Refused(InvalidRequest);
    }
    var ok := store.CreateAuthorizeSession(id, g, now);
    if ok { assert id in store.sessions && id !in old(store.sessions); }
    return if ok then Done(id) else Refused(ServerError);
  }

  /** /token with no other request in between. */
  function TokenUninterrupted(v: Server, s: State, r: nat, grantType: string, form: Form, key: string,
                              now: int): State {
    DoTokenIssue(v, DoTokenMark(DoTokenRead(s, r, grantType, form, now), r, now), r, key)
  }

  /** A registration is stored exactly for a non-empty list of valid redirect URIs of a public client: with
      these URIs, created now, and not used. */
  lemma RegisterExactly(v: Server, s: State, uris: seq<string>, authMethod: string, id: string, now: int)
    requires id !in s.j.registered && id !in s.t.clients
    ensures var t2 := DoRegister(v, s, uris, authMethod, id, now).t;
            if uris != [] && (forall u <- uris :: v.validUri(u)) && authMethod in {"", "none"}
            then t2 == s.t.(clients := s.t.clients[id := Client(uris, now, None)])
            else t2 == s.t
  {}

  /** What /authorize asks of a request. */
  predicate Authorizable(t: Tables, responseType: string, g: Grant) {
    Listed(t, g) && responseType == "code" && Challenged(g)
  }

  /** A session is stored exactly for a request that is in order: it carries its grant and lives for
      ten minutes. Otherwise nothing changes. */
  lemma AuthorizeExactly(s: State, r: nat, responseType: string, g: Grant, id: string, now: int)
    requires r !in s.pending && id !in s.j.authorized && id !in s.t.sessions
    ensures var t2 := AuthorizeUninterrupted(s, r, responseType, g, id, now).t;
            if Authorizable(s.t, responseType, g)
            then t2 == s.t.(sessions := s.t.sessions[id := Session(g, now + 600)])
            else t2 == s.t
  {
    var s1 := DoAuthorizeLookup(s, r, responseType, g);
    if Authorizable(s.t, responseType, g) {
      assert s1 == Hold(s, r, Authorizing(g));
    } else {
      assert s1 == s;
    }
  }

  predicate Redeemable(t: Tables, code: string, now: int) {
    code in t.codes && !t.codes[code].used && now <= t.codes[code].expiresAt
  }

  predicate FormMatches(v: Server, row: Code, form: Form) {
    form.client == row.grant.client && form.redirectUri == row.grant.redirectUri
      && row.grant.challengeMethod == "S256" && v.hash(form.verifier) == row.grant.challenge
  }

  predicate Complete(form: Form) {
    form.code != "" && form.client != "" && form.redirectUri != "" && form.verifier != ""
  }

  /** ServeToken, from the parsed form on. The code is spent before the form is held against it. */
  method ServeToken(store: Store, v: Server, grantType: string, form: Form, key: string, now: int)
      returns (reply: Reply)
    modifies store
    ensures store.View() == TokenUninterrupted(v, Alone(old(store.View())), 0, grantType, form, key, now).t
    ensures reply.Done? <==> key in store.keys && key !in old(store.keys)
    ensures reply == Refused(UnsupportedGrantType) <==> grantType != "authorization_code"
    ensures reply == Refused(InvalidRequest) <==> grantType == "authorization_code" && !Complete(form)
    ensures reply == Refused(InvalidGrant) <==>
              && grantType == "authorization_code" && Complete(form)
              && !(Redeemable(old(store.View()), form.code, now) && FormMatches(v, old(store.codes)[form.code], form))
  {
    if grantType != "authorization_code" {
      return Refused(UnsupportedGrantType);
    }
    if form.code == "" || form.client == "" || form.redirectUri == "" || form.verifier == "" {
      return Refused(InvalidRequest);
    }
    var consumed := store.ConsumeAuthorizationCode(form.code, now);
    if consumed.None? {
      return Refused(InvalidGrant);
    }
    var row := consumed.value;
    if row.grant.client != form.client || row.grant.redirectUri != form.redirectUri {
      return Refused(InvalidGrant);
    }
    if !VerifyPKCE(v.hash, form.verifier, row.grant) {
      return Refused(InvalidGrant);
    }
    var ok := store.IssueAPIKey(key, row.user);
    return if ok then Done(key) else Refused(ServerError);
  }

  lemma TokenOfCode(v: Server, s: State, r: nat, form: Form, key: string, now: int)
    requires r !in s.pending && key !in s.j.issued && key !in s.t.keys && Complete(form)
    requires Redeemable(s.t, form.code, now) && s.t.codes[form.code].user in s.t.users
    ensures var s2 := TokenUninterrupted(v, s, r, "authorization_code", form, key, now);
            && (key in s2.t.keys <==> FormMatches(v, s.t.codes[form.code], form))
            && (key in s2.t.keys ==> s2.t.keys[key] == s.t.codes[form.code].user)
  {
    var s1 := DoTokenMark(DoTokenRead(s, r, "authorization_code", form, now), r, now);
    assert s1.pending[r] == Redeemed(form, s.t.codes[form.code]) && s1.t.keys == s.t.keys && s1.t.users == s.t.users;
  }

  /** In a reachable state, /token gives out its fresh key, for the account behind the code, exactly to
      a form that matches a redeemable code. */
  lemma TokenExactly(v: Server, s: State, r: nat, form: Form, key: string, now: int)
    requires Inv(v, s) && r !in s.pending && key !in s.j.issued && Complete(form)
    ensures var s2 := TokenUninterrupted(v, s, r, "authorization_code", form, key, now);
            && (key in s2.t.keys <==> Redeemable(s.t, form.code, now) && FormMatches(v, s.t.codes[form.code], form))
            && (key in s2.t.keys ==> s2.t.keys[key] == s.t.codes[form.code].user)
  {
    assert key !in s.t.keys;
    if Redeemable(s.t, form.code, now) {
      assert CodeLinked(s.t.clients, s.t.users, s.t.codes[form.code]);
      TokenOfCode(v, s, r, form, key, now);
    }
  }

  /** A complete form for a redeemable code spends it, whether it matches or not; without such a code
      nothing changes. */
  lemma {:induction false} TokenSpends(v: Server, s: State, r: nat, form: Form, key: string, now: int)
    requires r !in s.pending && Complete(form)
    ensures var s2 := TokenUninterrupted(v, s, r, "authorization_code", form, key, now);
            && (Redeemable(s.t, form.code, now) ==> form.code in s2.t.codes && s2.t.codes[form.code].used)
            && (!Redeemable(s.t, form.code, now) ==> s2 == s)
  {
    if Redeemable(s.t, form.code, now) {
      var s1 := DoTokenMark(DoTokenRead(s, r, "authorization_code", form, now), r, now);
      assert form.code in s1.t.codes && s1.t.codes[form.code].used;
      assert DoTokenIssue(v, s1, r, key).t.codes == s1.t.codes;
    }
  }

  /** The account's row, or the new one when it has none. */
  predicate IsRowFor(t: Tables, account: Option<(int, string)>, freshRow: nat, row: nat) {
    account.Some? ==>
      if row in t.users then t.users[row].githubId == account.value.0
      else row == freshRow && forall u <- t.users :: t.users[u].githubId != account.value.0
  }

  predicate LiveSession(t: Tables, sid: string, now: int) {
    sid in t.sessions && now <= t.sessions[sid].expiresAt
  }

  /** The callback with no other request in between. */
  function CallbackUninterrupted(cfg: Config, t: Tables, sid: string, githubCode: string,
                                 account: Option<(int, string)>, lookupFails: bool, row: nat,
                                 id: string, now: int): Tables {
    if sid == "" || githubCode == "" then t else
    var v := Deployed(cfg, x => x, _ => true);
    var s := DoCallbackTake(Alone(t), 0, sid, now);
    match account
    case None => s.t
    case Some((githubId, login)) =>
      DoCallbackMint(DoCallbackSignIn(DoCallbackAdmit(v, s, 0, githubId, login, lookupFails), 0, row), 0, id, now).t
  }

  /** Step after step, that is one transaction after the other. */
  lemma CallbackInOneGo(cfg: Config, t: Tables, sid: string, githubCode: string, account: Option<(int, string)>,
                        lookupFails: bool, row: nat, id: string, now: int)
    requires sid != "" && githubCode != ""
    ensures var (t1, session) := ConsumeSessionTx(t, sid, now);
            CallbackUninterrupted(cfg, t, sid, githubCode, account, lookupFails, row, id, now) ==
            if session.None? || account.None?
               || !LoginAllowed(cfg, if lookupFails then None else Some(t.invites), account.value.1) then t1
            else
              match UpsertUserTx(t1, row, account.value.0, account.value.1)
              case None => t1
              case Some(t2) =>
                var minted := MintCodeTx(t2, id, row, session.value.grant, now);
                if minted.Some? then minted.value else t2
  {}

  /** ServeCallback. `account` is what GitHub says of the code, None when it cannot be had; `freshRow`
      is the row number a new user would get. */
  method ServeCallback(store: Store, cfg: Config, sid: string, githubCode: string, account: Option<(int, string)>,
                       lookupFails: bool, freshRow: nat, id: string, now: int) returns (reply: Reply)
    requires freshRow !in store.users
    modifies store
    ensures exists row | IsRowFor(old(store.View()), account, freshRow, row) ::
      store.View() == CallbackUninterrupted(cfg, old(store.View()), sid, githubCode, account, lookupFails, row, id, now)
    ensures reply.Done? <==> id in store.codes && id !in old(store.codes)
    ensures reply == Refused(InvalidRequest) <==> sid == "" || githubCode == ""
    ensures reply == Refused(SessionNotFound) <==>
              sid != "" && githubCode != "" && !LiveSession(old(store.View()), sid, now)
    ensures reply == Refused(AccessDenied) <==>
              && sid != "" && githubCode != "" && LiveSession(old(store.View()), sid, now) && account.Some?
              && !LoginAllowed(cfg, if lookupFails then None else Some(old(store.invites)), account.value.1)
  {
    ghost var before := store.View();
    ghost var any := freshRow;
    if account.Some? {
      if u :| u in store.users && store.users[u].githubId == account.value.0 { any := u; }
    }
    assert IsRowFor(before, account, freshRow, any);
    if sid == "" || githubCode == "" {
      assert store.View() == CallbackUninterrupted(cfg, before, sid, githubCode, account, lookupFails, any, id, now);
      return Refused(InvalidRequest);
    }
    CallbackInOneGo(cfg, before, sid, githubCode, account, lookupFails, any, id, now);
    var session := store.ConsumeAuthorizeSession(sid, now);
    if session.None? || account.None? {
      return Refused(if session.None? then SessionNotFound else ServerError);
    }
    var (githubId, login) := account.value;
    if !LoginAllowed(cfg, if lookupFails then None else Some(store.invites), login) {
      return Refused(AccessDenied);
    }
    var row := store.UpsertGitHubUser(freshRow, githubId, login);
    assert IsRowFor(before, account, freshRow, row);
    CallbackInOneGo(cfg, before, sid, githubCode, account, lookupFails, row, id, now);
    var ok := store.MintAuthorizationCode(id, row, session.value.grant, now);
    return if ok then Done(id) else Refused(ServerError);
  }

  lemma AdmittedGetsCode(s: State, p: Pending, freshRow: nat, row: nat, id: string, now: int)
    requires p.Admitted? && s.pending == map[0 := p] && s.j.rows == map[] && s.j.minted == map[]
             && p.grant.client in s.t.clients
    requires IsRowFor(s.t, Some((p.githubId, p.login)), freshRow, row) && id !in s.t.codes
    ensures var t2 := DoCallbackMint(DoCallbackSignIn(s, 0, row), 0, id, now).t;
            && t2.codes == s.t.codes[id := Code(row, p.grant, false, now + CODE_TTL)]
            && t2.users == s.t.users[row := User(p.githubId, p.login)] && t2.sessions == s.t.sessions
  {}

  lemma LiveSessionGoesOn(cfg: Config, t: Tables, sid: string, githubId: int, login: string, lookupFails: bool,
                          freshRow: nat, row: nat, id: string, now: int)
    requires LiveSession(t, sid, now) && t.sessions[sid].grant.client in t.clients
    requires IsRowFor(t, Some((githubId, login)), freshRow, row) && id !in t.codes
    ensures var v := Deployed(cfg, x => x, _ => true);
            var s := DoCallbackAdmit(v, DoCallbackTake(Alone(t), 0, sid, now), 0, githubId, login, lookupFails);
            var t2 := DoCallbackMint(DoCallbackSignIn(s, 0, row), 0, id, now).t;
            if LoginAllowed(cfg, if lookupFails then None else Some(t.invites), login) then
              && t2.codes == t.codes[id := Code(row, t.sessions[sid].grant, false, now + CODE_TTL)]
              && t2.users == t.users[row := User(githubId, login)] && t2.sessions == t.sessions - {sid}
            else
              t2 == t.(sessions := t.sessions - {sid})
  {
    var (v, grant) := (Deployed(cfg, x => x, _ => true), t.sessions[sid].grant);
    var s := DoCallbackTake(Alone(t), 0, sid, now);
    assert s.pending == map[0 := Returned(sid, grant)];
    var s2 := DoCallbackAdmit(v, s, 0, githubId, login, lookupFails);
    var seen := if lookupFails then None else Some(t.invites);
    if LoginAllowed(cfg, seen, login) {
      var p := Admitted(sid, grant, githubId, login, seen);
      assert s2.pending == map[0 := p];
      AdmittedGetsCode(s2, p, freshRow, row, id, now);
    }
  }

  /** Alone with linked tables, the callback hands out its fresh code exactly for a live session and an
      account that is let in; the code is for that account, carries the session's grant and lives for a minute. */
  lemma CallbackExactly(cfg: Config, t: Tables, sid: string, githubCode: string, account: Option<(int, string)>,
                        lookupFails: bool, freshRow: nat, row: nat, id: string, now: int)
    requires SessionsLinked(t.clients, t.sessions) && IsRowFor(t, account, freshRow, row)
    requires id !in t.codes && sid != "" && githubCode != ""
    ensures var t2 := CallbackUninterrupted(cfg, t, sid, githubCode, account, lookupFails, row, id, now);
            && (id in t2.codes <==>
                  && LiveSession(t, sid, now) && account.Some?
                  && LoginAllowed(cfg, if lookupFails then None else Some(t.invites), account.value.1))
            && (id in t2.codes ==>
                  && t2.codes[id] == Code(row, t.sessions[sid].grant, false, now + 60)
                  && row in t2.users && t2.users[row] == User(account.value.0, account.value.1))
            && sid !in t2.sessions
  {
    if LiveSession(t, sid, now) && account.Some? {
      LiveSessionGoesOn(cfg, t, sid, account.value.0, account.value.1, lookupFails, freshRow, row, id, now);
    }
  }

  /** Where nobody is configured, the callback gives every account with a live session a code, unless the
      invite lookup fails. */
  lemma OpenDeploymentLetsAllIn(cfg: Config, t: Tables, sid: string, githubCode: string, account: (int, string),
                                lookupFails: bool, freshRow: nat, row: nat, id: string, now: int)
    requires cfg.allowedLogins == {} && cfg.adminLogins == {}
    requires SessionsLinked(t.clients, t.sessions) && IsRowFor(t, Some(account), freshRow, row)
    requires id !in t.codes && LiveSession(t, sid, now) && sid != "" && githubCode != ""
    ensures id in CallbackUninterrupted(cfg, t, sid, githubCode, Some(account), lookupFails, row, id, now).codes
            <==> !lookupFails
  {
    CallbackExactly(cfg, t, sid, githubCode, Some(account), lookupFails, freshRow, row, id, now);
  }

  /** Where somebody is configured, it gives a code to exactly the logins that are configured or, if the
      lookup works, invited; letter case and space around a login do not matter. */
  lemma ClosedDeploymentLetsIn(cfg: Config, t: Tables, sid: string, githubCode: string, account: (int, string),
                               lookupFails: bool, freshRow: nat, row: nat, id: string, now: int)
    requires cfg.allowedLogins != {} || cfg.adminLogins != {}
    requires SessionsLinked(t.clients, t.sessions) && IsRowFor(t, Some(account), freshRow, row)
    requires id !in t.codes && LiveSession(t, sid, now) && sid != "" && githubCode != ""
    ensures var l := NormalizeLogin(account.1);
            id in CallbackUninterrupted(cfg, t, sid, githubCode, Some(account), lookupFails, row, id, now).codes
            <==> l in cfg.adminLogins + cfg.allowedLogins || (!lookupFails && l in t.invites)
  {
    CallbackExactly(cfg, t, sid, githubCode, Some(account), lookupFails, freshRow, row, id, now);
  }
}
