/** Every interleaving of the OAuth requests: what a key from /token can be traced back to. */
module OAuthFlow {
  import opened Text
  import opened OAuth

  /** The /token form. */
  datatype Form = Form(code: string, client: string, redirectUri: string, verifier: string)

  /** A request between two of its transactions. */
  datatype Pending =
    // /authorize: looked the client up and passed its checks
    | Authorizing(grant: Grant)
    // /auth/github/callback: took the session; then knows the account; then has its row
    | Returned(sid: string, grant: Grant)
    | Admitted(sid: string, grant: Grant, githubId: int, login: string, seen: Option<set<string>>)
    | SignedIn(sid: string, grant: Grant, githubId: int, user: nat, login: string, seen: Option<set<string>>)
    // /token: read the code's row; then marked it used
    | Redeeming(form: Form, row: Code)
    | Redeemed(form: Form, row: Code)

  /** How a code came about, and how a key did. `seen` is the invite list that admitted the login. */
  datatype Minting = Minting(
    sid: string, grant: Grant, githubId: int, user: nat, login: string, seen: Option<set<string>>)

  datatype Issue = Issue(form: Form, grant: Grant, user: nat)

  /** Everything the server has ever handed out or accepted, in its own words. It only grows. */
  datatype Journal = Journal(
    registered: map<string, seq<string>>,  // client to its redirect URIs
    authorized: map<string, Grant>,        // session to what was asked for
    taken: map<string, nat>,               // session to the callback request that took it
    minted: map<string, Minting>,          // code to how it came about
    codeOf: map<string, string>,           // session to its code
    redeemer: map<string, nat>,            // code to the token request that redeemed it
    issued: map<string, Issue>,            // key to how it came about
    keyOf: map<string, string>,            // code to its key
    rows: map<nat, int>)                   // user row to its GitHub account; rows are never used again

  datatype State = State(t: Tables, pending: map<nat, Pending>, j: Journal)

  const EMPTY := State(
    Tables(map[], map[], map[], map[], map[], {}), map[],
    Journal(map[], map[], map[], map[], map[], map[], map[], map[], map[]))

  /** The server's fixed parts: whom it admits under which invite list (None: the lookup failed),
      its hash, and which redirect URIs it takes. */
  datatype Server = Server(
    admits: (Option<set<string>>, string) -> bool,
    hash: string -> string,
    validUri: string -> bool)

  /** The server of a deployment. */
  function Deployed(cfg: Config, hash: string -> string, validUri: string -> bool): Server {
    Server((invites, login) => LoginAllowed(cfg, invites, login), hash, validUri)
  }

  /** One transaction of one request, or one administrative act. Names that start with `fresh` are
      what the random source gives, `now` what the clock shows; r is the request. */
  datatype Op =
    | Register(uris: seq<string>, authMethod: string, freshId: string, now: int)
    | AuthorizeLookup(r: nat, responseType: string, grant: Grant)
    | AuthorizeStore(r: nat, freshId: string, now: int)
    | CallbackTake(r: nat, sid: string, now: int)
    | CallbackAdmit(r: nat, githubId: int, login: string, lookupFails: bool)
    | CallbackSignIn(r: nat, row: nat)
    | CallbackMint(r: nat, freshId: string, now: int)
    | TokenRead(r: nat, grantType: string, form: Form, now: int)
    | TokenMark(r: nat, now: int)
    | TokenIssue(r: nat, freshId: string)
    | WebSignIn(row: nat, githubId: int, login: string)
    | Prune(cutoff: int)
    | DeleteUser(login: string)
    | Invite(login: string)
    | Revoke(login: string)
    | RevokeKeys(login: string)
    | Abandon(r: nat)

  function Drop(s: State, r: nat): State {
    s.(pending := s.pending - {r})
  }

  function Hold(s: State, r: nat, p: Pending): State {
    s.(pending := s.pending[r := p])
  }

  // What the journal notes.

  function NoteClient(j: Journal, id: string, uris: seq<string>): Journal {
    j.(registered := j.registered[id := uris])
  }

  function NoteSession(j: Journal, id: string, g: Grant): Journal {
    j.(authorized := j.authorized[id := g])
  }

  function NoteTaken(j: Journal, sid: string, r: nat): Journal {
    j.(taken := j.taken[sid := r])
  }

  function NoteRow(j: Journal, row: nat, githubId: int): Journal {
    j.(rows := j.rows[row := githubId])
  }

  function NoteMint(j: Journal, id: string, m: Minting): Journal {
    j.(minted := j.minted[id := m], codeOf := j.codeOf[m.sid := id])
  }

  function NoteRedeemed(j: Journal, code: string, r: nat): Journal {
    j.(redeemer := j.redeemer[code := r])
  }

  function NoteIssue(j: Journal, id: string, i: Issue): Journal {
    j.(issued := j.issued[id := i], keyOf := j.keyOf[i.form.code := id])
  }

  /** ServeRegister. */
  function DoRegister(v: Server, s: State, uris: seq<string>, authMethod: string, id: string, now: int): State {
    if uris == [] || (exists u <- uris :: !v.validUri(u)) || (authMethod != "" && authMethod != "none") then s
    else if id in s.j.registered then s else
    match RegisterClientTx(s.t, id, uris, now)
    case None => s
    case Some(t) => s.(t := t, j := NoteClient(s.j, id, uris))
  }

  /** ServeAuthorize up to its insert: the client, its redirect URI, the response type and PKCE. */
  function DoAuthorizeLookup(s: State, r: nat, responseType: string, g: Grant): State {
    if r in s.pending || g.client == "" || g.redirectUri == "" then s
    else if g.client !in s.t.clients || g.redirectUri !in s.t.clients[g.client].redirectUris then s
    else if responseType != "code" || g.challenge == "" || g.challengeMethod != "S256" then s
    else Hold(s, r, Authorizing(g))
  }

  function DoAuthorizeStore(s: State, r: nat, id: string, now: int): State {
    if r !in s.pending || !s.pending[r].Authorizing? || id in s.j.authorized then s else
    var g := s.pending[r].grant;
    match CreateSessionTx(s.t, id, g, now)
    case None => Drop(s, r)
    case Some(t) => Drop(s, r).(t := t, j := NoteSession(s.j, id, g))
  }

  /** ServeCallback: one step per transaction. */
  function DoCallbackTake(s: State, r: nat, sid: string, now: int): State {
    if r in s.pending then s else
    var (t, out) := ConsumeSessionTx(s.t, sid, now);
    match out
    case None => s.(t := t)
    case Some(row) => Hold(s, r, Returned(sid, row.grant)).(t := t, j := NoteTaken(s.j, sid, r))
  }

  function DoCallbackAdmit(v: Server, s: State, r: nat, githubId: int, login: string, lookupFails: bool): State {
    if r !in s.pending || !s.pending[r].Returned? then s else
    var seen := if lookupFails then None else Some(s.t.invites);
    if v.admits(seen, login)
    then Hold(s, r, Admitted(s.pending[r].sid, s.pending[r].grant, githubId, login, seen))
    else Drop(s, r)
  }

  function DoCallbackSignIn(s: State, r: nat, row: nat): State {
    if r !in s.pending || !s.pending[r].Admitted? || (row !in s.t.users && row in s.j.rows) then s else
    var p := s.pending[r];
    match UpsertUserTx(s.t, row, p.githubId, p.login)
    case None => s
    case Some(t) =>
      var next := SignedIn(p.sid, p.grant, p.githubId, row, p.login, p.seen);
      Hold(s, r, next).(t := t, j := NoteRow(s.j, row, p.githubId))
  }

  /** An administrator signs in to the web pages, whoever that is. */
  function DoWebSignIn(s: State, row: nat, githubId: int, login: string): State {
    if row !in s.t.users && row in s.j.rows then s else
    match UpsertUserTx(s.t, row, githubId, login)
    case None => s
    case Some(t) => s.(t := t, j := NoteRow(s.j, row, githubId))
  }

  function DoCallbackMint(s: State, r: nat, id: string, now: int): State {
    if r !in s.pending || !s.pending[r].SignedIn? || id in s.j.minted then s else
    var p := s.pending[r];
    match MintCodeTx(s.t, id, p.user, p.grant, now)
    case None => Drop(s, r)
    case Some(t) =>
      Drop(s, r).(t := t, j := NoteMint(s.j, id, Minting(p.sid, p.grant, p.githubId, p.user, p.login, p.seen)))
  }

  /** ServeToken: the row is read, then marked under its guard, then checked, then the key issued. */
  function DoTokenRead(s: State, r: nat, grantType: string, form: Form, now: int): State {
    if r in s.pending || grantType != "authorization_code" then s
    else if form.code == "" || form.client == "" || form.redirectUri == "" || form.verifier == "" then s else
    match SelectCode(s.t, form.code, now)
    case None => s
    case Some(row) => Hold(s, r, Redeeming(form, row))
  }

  function DoTokenMark(s: State, r: nat, now: int): State {
    if r !in s.pending || !s.pending[r].Redeeming? then s else
    var p := s.pending[r];
    match MarkCode(s.t, p.form.code, now)
    case None => Drop(s, r)
    case Some(t) =>
      Hold(s, r, Redeemed(p.form, p.row)).(t := t, j := NoteRedeemed(s.j, p.form.code, r))
  }

  function DoTokenIssue(v: Server, s: State, r: nat, id: string): State {
    if r !in s.pending || !s.pending[r].Redeemed? || id in s.j.issued then s else
    var p := s.pending[r];
    if p.row.grant.client != p.form.client || p.row.grant.redirectUri != p.form.redirectUri then Drop(s, r)
    else if !VerifyPKCE(v.hash, p.form.verifier, p.row.grant) then Drop(s, r) else
    match IssueKeyTx(s.t, id, p.row.user)
    case None => Drop(s, r)
    case Some(t) =>
      Drop(s, r).(t := t, j := NoteIssue(s.j, id, Issue(p.form, p.row.grant, p.row.user)))
  }

  function Step(v: Server, s: State, op: Op): State {
    match op
    case Register(uris, authMethod, id, now) => DoRegister(v, s, uris, authMethod, id, now)
    case AuthorizeLookup(r, responseType, g) => DoAuthorizeLookup(s, r, responseType, g)
    case AuthorizeStore(r, id, now) => DoAuthorizeStore(s, r, id, now)
    case CallbackTake(r, sid, now) => DoCallbackTake(s, r, sid, now)
    case CallbackAdmit(r, githubId, login, lookupFails) => DoCallbackAdmit(v, s, r, githubId, login, lookupFails)
    case CallbackSignIn(r, row) => DoCallbackSignIn(s, r, row)
    case CallbackMint(r, id, now) => DoCallbackMint(s, r, id, now)
    case TokenRead(r, grantType, form, now) => DoTokenRead(s, r, grantType, form, now)
    case TokenMark(r, now) => DoTokenMark(s, r, now)
    case TokenIssue(r, id) => DoTokenIssue(v, s, r, id)
    case WebSignIn(row, githubId, login) => DoWebSignIn(s, row, githubId, login)
    case Prune(cutoff) => s.(t := DropClients(s.t, Stale(s.t, cutoff)))
    case DeleteUser(login) =>
      var target := NormalizeLogin(login);
      s.(t := DropUsers(s.t, UsersNamed(s.t, target)).(invites := s.t.invites - {target}))
    case Invite(login) =>
      var target := NormalizeLogin(login);
      if target == "" then s else s.(t := s.t.(invites := s.t.invites + {target}))
    case Revoke(login) => s.(t := s.t.(invites := s.t.invites - {NormalizeLogin(login)}))
    case RevokeKeys(login) =>
      var holders := UsersNamed(s.t, NormalizeLogin(login));
      s.(t := s.t.(keys := map k | k in s.t.keys && s.t.keys[k] !in holders :: s.t.keys[k]))
    case Abandon(r) => Drop(s, r)
  }

  function Run(v: Server, s: State, ops: seq<Op>): State
    decreases |ops|
  {
    if ops == [] then s else Run(v, Step(v, s, ops[0]), ops[1..])
  }

  // What holds in every reachable state.

  ghost predicate SessionsLinked(clients: map<string, Client>, sessions: map<string, Session>) {
    forall x <- sessions :: sessions[x].grant.client in clients
  }

  predicate CodeLinked(clients: map<string, Client>, users: map<nat, User>, row: Code) {
    && row.grant.client in clients && row.user in users
    && (row.used ==> clients[row.grant.client].lastUsedAt.Some?)
  }

  /** A client with a redeemed code is, besides, marked as used. */
  ghost predicate CodesLinked(clients: map<string, Client>, users: map<nat, User>, codes: map<string, Code>) {
    forall c <- codes :: CodeLinked(clients, users, codes[c])
  }

  ghost predicate KeysLinked(users: map<nat, User>, keys: map<string, nat>) {
    forall k <- keys :: keys[k] in users
  }

  /** Rows point at rows. */
  ghost predicate References(t: Tables) {
    SessionsLinked(t.clients, t.sessions) && CodesLinked(t.clients, t.users, t.codes) && KeysLinked(t.users, t.keys)
  }

  // The tables hold nothing that the journal does not know.

  ghost predicate ClientsKnown(clients: map<string, Client>, registered: map<string, seq<string>>) {
    forall x <- clients :: x in registered && clients[x].redirectUris == registered[x]
  }

  /** A live session is as it was authorized, was not taken and has no code. */
  ghost predicate SessionsKnown(sessions: map<string, Session>, j: Journal) {
    forall x <- sessions :: x in j.authorized && j.authorized[x] == sessions[x].grant && x !in j.taken && x !in j.codeOf
  }

  ghost predicate UsersKnown(users: map<nat, User>, rows: map<nat, int>) {
    forall u <- users :: u in rows && rows[u] == users[u].githubId
  }

  predicate RowIs(minted: map<string, Minting>, c: string, g: Grant, user: nat) {
    c in minted && minted[c].grant == g && minted[c].user == user
  }

  /** A stored code is as it was minted, and is marked when it was redeemed. */
  ghost predicate CodesKnown(codes: map<string, Code>, minted: map<string, Minting>, redeemer: map<string, nat>) {
    forall c <- codes :: RowIs(minted, c, codes[c].grant, codes[c].user) && (c in redeemer <==> codes[c].used)
  }

  ghost predicate KeysKnown(keys: map<string, nat>, issued: map<string, Issue>) {
    forall k <- keys :: k in issued && issued[k].user == keys[k]
  }

  ghost predicate Known(t: Tables, j: Journal) {
    && ClientsKnown(t.clients, j.registered) && SessionsKnown(t.sessions, j)
    && UsersKnown(t.users, j.rows)
    && CodesKnown(t.codes, j.minted, j.redeemer) && KeysKnown(t.keys, j.issued)
  }

  /** Its parts speak of the same sessions and codes. */
  ghost predicate Closed(j: Journal) {
    j.taken.Keys <= j.authorized.Keys && j.codeOf.Keys <= j.taken.Keys
    && j.redeemer.Keys <= j.minted.Keys && j.keyOf.Keys <= j.redeemer.Keys
  }

  /** The grant was asked for by a client under one of its registered redirect URIs, with PKCE. */
  predicate GrantOk(registered: map<string, seq<string>>, g: Grant) {
    g.client in registered && g.redirectUri in registered[g.client] && g.challengeMethod == "S256"
  }

  ghost predicate GrantsOk(registered: map<string, seq<string>>, authorized: map<string, Grant>) {
    forall x <- authorized :: GrantOk(registered, authorized[x])
  }

  /** The code came from one authorize request, whose grant it carries, by an admitted login; it is
      the only code of that request, and names the row of the GitHub account that signed in. */
  predicate MintingOk(v: Server, authorized: map<string, Grant>, codeOf: map<string, string>, rows: map<nat, int>,
                      c: string, m: Minting) {
    && m.sid in authorized && authorized[m.sid] == m.grant && v.admits(m.seen, m.login)
    && m.sid in codeOf && codeOf[m.sid] == c && m.user in rows && rows[m.user] == m.githubId
  }

  ghost predicate MintingsOk(v: Server, authorized: map<string, Grant>, codeOf: map<string, string>,
                             rows: map<nat, int>, minted: map<string, Minting>) {
    forall c <- minted :: MintingOk(v, authorized, codeOf, rows, c, minted[c])
  }

  /** The key came from one redeemed code, whose grant the form matched and the verifier opened; it
      is the only key of that code. */
  predicate IssueOk(v: Server, minted: map<string, Minting>, redeemer: map<string, nat>, keyOf: map<string, string>,
                    k: string, i: Issue) {
    && i.form.code in redeemer && RowIs(minted, i.form.code, i.grant, i.user)
    && i.form.client == i.grant.client && i.form.redirectUri == i.grant.redirectUri
    && VerifyPKCE(v.hash, i.form.verifier, i.grant)
    && i.form.code in keyOf && keyOf[i.form.code] == k
  }

  ghost predicate IssuesOk(v: Server, minted: map<string, Minting>, redeemer: map<string, nat>,
                           keyOf: map<string, string>, issued: map<string, Issue>) {
    forall k <- issued :: IssueOk(v, minted, redeemer, keyOf, k, issued[k])
  }

  ghost predicate JournalOk(v: Server, j: Journal) {
    && Closed(j) && GrantsOk(j.registered, j.authorized) && MintingsOk(v, j.authorized, j.codeOf, j.rows, j.minted)
    && IssuesOk(v, j.minted, j.redeemer, j.keyOf, j.issued)
  }

  /** The session is authorized, was taken by r, is gone from its table, and no code has come of it. */
  predicate Taken(s: State, r: nat, sid: string, g: Grant) {
    && sid in s.j.authorized && s.j.authorized[sid] == g && sid !in s.t.sessions
    && sid in s.j.taken && s.j.taken[sid] == r && sid !in s.j.codeOf
  }

  /** What request r waits for is in order. */
  predicate PendingOk(v: Server, s: State, r: nat, p: Pending) {
    match p
    case Authorizing(g) => GrantOk(s.j.registered, g)
    case Returned(sid, g) => Taken(s, r, sid, g)
    case Admitted(sid, g, _, login, seen) => Taken(s, r, sid, g) && v.admits(seen, login)
    case SignedIn(sid, g, githubId, user, login, seen) =>
      Taken(s, r, sid, g) && v.admits(seen, login) && user in s.j.rows && s.j.rows[user] == githubId
    case Redeeming(form, row) => RowIs(s.j.minted, form.code, row.grant, row.user)
    case Redeemed(form, row) =>
      && RowIs(s.j.minted, form.code, row.grant, row.user)
      && form.code in s.j.redeemer && s.j.redeemer[form.code] == r && form.code !in s.j.keyOf
  }

  ghost predicate AllPendingOk(v: Server, s: State) {
    forall r <- s.pending :: PendingOk(v, s, r, s.pending[r])
  }

  ghost predicate Inv(v: Server, s: State) {
    References(s.t) && Known(s.t, s.j) && JournalOk(v, s.j) && AllPendingOk(v, s)
  }

  ghost predicate Extends<K, V>(m: map<K, V>, m2: map<K, V>) {
    forall k <- m :: k in m2 && m2[k] == m[k]
  }

  /** The journal of a later state. */
  ghost predicate Grows(j: Journal, j2: Journal) {
    && Extends(j.registered, j2.registered) && Extends(j.authorized, j2.authorized) && Extends(j.taken, j2.taken)
    && Extends(j.minted, j2.minted) && Extends(j.codeOf, j2.codeOf) && Extends(j.redeemer, j2.redeemer)
    && Extends(j.issued, j2.issued) && Extends(j.keyOf, j2.keyOf) && Extends(j.rows, j2.rows)
  }

  // Each note is in order if what it says is.

  lemma ClientNoted(v: Server, j: Journal, id: string, uris: seq<string>)
    requires JournalOk(v, j) && id !in j.registered
    ensures Grows(j, NoteClient(j, id, uris)) && JournalOk(v, NoteClient(j, id, uris))
  {}

  lemma SessionNoted(v: Server, j: Journal, id: string, g: Grant)
    requires JournalOk(v, j) && id !in j.authorized && GrantOk(j.registered, g)
    ensures Grows(j, NoteSession(j, id, g)) && JournalOk(v, NoteSession(j, id, g))
  {}

  lemma TakeNoted(v: Server, j: Journal, sid: string, r: nat)
    requires JournalOk(v, j) && sid in j.authorized && sid !in j.taken
    ensures Grows(j, NoteTaken(j, sid, r)) && JournalOk(v, NoteTaken(j, sid, r))
  {}

  lemma RowNoted(v: Server, j: Journal, row: nat, githubId: int)
    requires JournalOk(v, j) && (row in j.rows ==> j.rows[row] == githubId)
    ensures Grows(j, NoteRow(j, row, githubId)) && JournalOk(v, NoteRow(j, row, githubId))
  {}

  lemma MintAdded(v: Server, authorized: map<string, Grant>, codeOf: map<string, string>, rows: map<nat, int>,
                  minted: map<string, Minting>, id: string, m: Minting)
    requires MintingsOk(v, authorized, codeOf, rows, minted) && id !in minted && m.sid !in codeOf
    requires MintingOk(v, authorized, codeOf[m.sid := id], rows, id, m)
    ensures MintingsOk(v, authorized, codeOf[m.sid := id], rows, minted[id := m])
  {}

  lemma IssuesKept(v: Server, minted: map<string, Minting>, id: string, m: Minting, redeemer: map<string, nat>,
                   keyOf: map<string, string>, issued: map<string, Issue>)
    requires IssuesOk(v, minted, redeemer, keyOf, issued) && id !in minted
    ensures IssuesOk(v, minted[id := m], redeemer, keyOf, issued)
  {}

  lemma {:induction false} MintNoted(v: Server, j: Journal, id: string, m: Minting)
    requires JournalOk(v, j) && id !in j.minted && m.sid in j.taken && j.authorized[m.sid] == m.grant
    requires m.sid !in j.codeOf && v.admits(m.seen, m.login) && m.user in j.rows && j.rows[m.user] == m.githubId
    ensures Grows(j, NoteMint(j, id, m)) && JournalOk(v, NoteMint(j, id, m))
  {
    MintAdded(v, j.authorized, j.codeOf, j.rows, j.minted, id, m);
    IssuesKept(v, j.minted, id, m, j.redeemer, j.keyOf, j.issued);
  }

  lemma IssuesKeptRedeemed(v: Server, minted: map<string, Minting>, redeemer: map<string, nat>,
                           keyOf: map<string, string>, issued: map<string, Issue>, code: string, r: nat)
    requires IssuesOk(v, minted, redeemer, keyOf, issued)
    ensures IssuesOk(v, minted, redeemer[code := r], keyOf, issued)
  {}

  lemma RedemptionNoted(v: Server, j: Journal, code: string, r: nat)
    requires JournalOk(v, j) && code in j.minted && code !in j.redeemer
    ensures Grows(j, NoteRedeemed(j, code, r)) && JournalOk(v, NoteRedeemed(j, code, r))
  {
    IssuesKeptRedeemed(v, j.minted, j.redeemer, j.keyOf, j.issued, code, r);
  }

  lemma IssueAdded(v: Server, minted: map<string, Minting>, redeemer: map<string, nat>, keyOf: map<string, string>,
                   issued: map<string, Issue>, id: string, i: Issue)
    requires IssuesOk(v, minted, redeemer, keyOf, issued) && id !in issued && i.form.code !in keyOf
    requires i.form.code in redeemer && RowIs(minted, i.form.code, i.grant, i.user)
    requires i.form.client == i.grant.client && i.form.redirectUri == i.grant.redirectUri
    requires VerifyPKCE(v.hash, i.form.verifier, i.grant)
    ensures IssuesOk(v, minted, redeemer, keyOf[i.form.code := id], issued[id := i])
  {}

  lemma {:induction false} IssueNoted(v: Server, j: Journal, id: string, i: Issue)
    requires JournalOk(v, j) && id !in j.issued && i.form.code in j.redeemer && i.form.code !in j.keyOf
    requires RowIs(j.minted, i.form.code, i.grant, i.user) && VerifyPKCE(v.hash, i.form.verifier, i.grant)
    requires i.form.client == i.grant.client && i.form.redirectUri == i.grant.redirectUri
    ensures Grows(j, NoteIssue(j, id, i)) && JournalOk(v, NoteIssue(j, id, i))
  {
    IssueAdded(v, j.minted, j.redeemer, j.keyOf, j.issued, id, i);
  }

  // The tables after each write.

  lemma RegisterTables(s: State, id: string, uris: seq<string>, now: int)
    requires References(s.t) && Known(s.t, s.j) && RegisterClientTx(s.t, id, uris, now).Some?
    ensures var t2 := RegisterClientTx(s.t, id, uris, now).value; References(t2) && Known(t2, NoteClient(s.j, id, uris))
  {}

  lemma AuthorizeTables(s: State, id: string, g: Grant, now: int)
    requires References(s.t) && Known(s.t, s.j) && CreateSessionTx(s.t, id, g, now).Some?
    requires Closed(s.j) && id !in s.j.authorized
    ensures var t2 := CreateSessionTx(s.t, id, g, now).value; References(t2) && Known(t2, NoteSession(s.j, id, g))
  {}

  lemma TakeTables(s: State, sid: string, r: nat, now: int)
    requires References(s.t) && Known(s.t, s.j)
    ensures var t2 := ConsumeSessionTx(s.t, sid, now).0;
            References(t2) && Known(t2, s.j) && Known(t2, NoteTaken(s.j, sid, r))
  {}

  lemma SignInTables(s: State, row: nat, githubId: int, login: string)
    requires References(s.t) && Known(s.t, s.j) && UpsertUserTx(s.t, row, githubId, login).Some?
    ensures var t2 := UpsertUserTx(s.t, row, githubId, login).value;
            References(t2) && Known(t2, NoteRow(s.j, row, githubId))
  {}

  lemma {:induction false} MintTables(s: State, id: string, m: Minting, now: int)
    requires References(s.t) && Known(s.t, s.j) && MintCodeTx(s.t, id, m.user, m.grant, now).Some?
    requires Closed(s.j) && id !in s.j.minted && m.sid !in s.t.sessions
    ensures var t2 := MintCodeTx(s.t, id, m.user, m.grant, now).value; References(t2) && Known(t2, NoteMint(s.j, id, m))
  {}

  lemma MarkTables(s: State, code: string, r: nat, now: int)
    requires References(s.t) && Known(s.t, s.j) && MarkCode(s.t, code, now).Some?
    ensures var t2 := MarkCode(s.t, code, now).value; References(t2) && Known(t2, NoteRedeemed(s.j, code, r))
  {}

  lemma IssueTables(s: State, id: string, i: Issue)
    requires References(s.t) && Known(s.t, s.j) && IssueKeyTx(s.t, id, i.user).Some?
    ensures var t2 := IssueKeyTx(s.t, id, i.user).value; References(t2) && Known(t2, NoteIssue(s.j, id, i))
  {}

  lemma PruneTables(t: Tables, j: Journal, cutoff: int)
    requires References(t) && Known(t, j)
    ensures References(DropClients(t, Stale(t, cutoff))) && Known(DropClients(t, Stale(t, cutoff)), j)
  {}

  lemma DropUsersTables(t: Tables, j: Journal, gone: set<nat>)
    requires References(t) && Known(t, j)
    ensures References(DropUsers(t, gone)) && Known(DropUsers(t, gone), j)
  {}

  // Requests between two transactions.

  /** A request that is not r keeps its place when the rest moves on. */
  lemma PendingStays(v: Server, s: State, s2: State, r: nat, p: Pending)
    requires PendingOk(v, s, r, p) && Grows(s.j, s2.j)
    requires forall x <- s2.t.sessions :: x in s.t.sessions || x !in s.j.authorized
    requires forall x <- s2.j.codeOf :: x in s.j.codeOf || (x in s.j.taken && s.j.taken[x] != r)
    requires forall c <- s2.j.keyOf :: c in s.j.keyOf || (c in s.j.redeemer && s.j.redeemer[c] != r)
    ensures PendingOk(v, s2, r, p)
  {}

  /** The pending requests stay in order when only r moves, and only into a place that is. Codes and
      keys that were handed out were r's. */
  lemma {:induction false} PendingKept(v: Server, s: State, s2: State, r: nat)
    requires AllPendingOk(v, s) && Grows(s.j, s2.j)
    requires forall x <- s2.t.sessions :: x in s.t.sessions || x !in s.j.authorized
    requires forall x <- s2.j.codeOf :: x in s.j.codeOf || (x in s.j.taken && s.j.taken[x] == r)
    requires forall c <- s2.j.keyOf :: c in s.j.keyOf || (c in s.j.redeemer && s.j.redeemer[c] == r)
    requires (r in s2.pending && s2.pending == s.pending[r := s2.pending[r]]) || s2.pending == s.pending - {r}
    requires r in s2.pending ==> PendingOk(v, s2, r, s2.pending[r])
    ensures AllPendingOk(v, s2)
  {
    forall q | q in s2.pending ensures PendingOk(v, s2, q, s2.pending[q]) {
      if q != r {
        assert q in s.pending && s.pending[q] == s2.pending[q];
        PendingStays(v, s, s2, q, s.pending[q]);
      }
    }
  }

  /** Nothing moves and nothing is handed out. */
  lemma PendingUntouched(v: Server, s: State, s2: State)
    requires AllPendingOk(v, s) && Grows(s.j, s2.j)
    requires forall x <- s2.t.sessions :: x in s.t.sessions || x !in s.j.authorized
    requires s2.j.codeOf == s.j.codeOf && s2.j.keyOf == s.j.keyOf && s2.pending == s.pending
    ensures AllPendingOk(v, s2)
  {
    forall q | q in s2.pending ensures PendingOk(v, s2, q, s2.pending[q]) {
      PendingStays(v, s, s2, q, s.pending[q]);
    }
  }

  // One lemma per step.

  lemma RegisterKeeps(v: Server, s: State, uris: seq<string>, authMethod: string, id: string, now: int)
    requires Inv(v, s)
    ensures var s2 := DoRegister(v, s, uris, authMethod, id, now); Grows(s.j, s2.j) && Inv(v, s2)
  {
    var s2 := DoRegister(v, s, uris, authMethod, id, now);
    if s2 != s {
      ClientNoted(v, s.j, id, uris);
      RegisterTables(s, id, uris, now);
      PendingUntouched(v, s, s2);
    }
  }

  lemma AuthorizeLookupKeeps(v: Server, s: State, r: nat, responseType: string, g: Grant)
    requires Inv(v, s)
    ensures var s2 := DoAuthorizeLookup(s, r, responseType, g); Grows(s.j, s2.j) && Inv(v, s2)
  {
    var s2 := DoAuthorizeLookup(s, r, responseType, g);
    if s2 != s { PendingKept(v, s, s2, r); }
  }

  lemma AuthorizeStoreKeeps(v: Server, s: State, r: nat, id: string, now: int)
    requires Inv(v, s)
    ensures var s2 := DoAuthorizeStore(s, r, id, now); Grows(s.j, s2.j) && Inv(v, s2)
  {
    var s2 := DoAuthorizeStore(s, r, id, now);
    if s2 != s {
      var g := s.pending[r].grant;
      assert PendingOk(v, s, r, s.pending[r]);
      if s2.t != s.t {
        SessionNoted(v, s.j, id, g);
        AuthorizeTables(s, id, g, now);
      }
      PendingKept(v, s, s2, r);
    }
  }

  lemma CallbackTakeKeeps(v: Server, s: State, r: nat, sid: string, now: int)
    requires Inv(v, s)
    ensures var s2 := DoCallbackTake(s, r, sid, now); Grows(s.j, s2.j) && Inv(v, s2)
  {
    var s2 := DoCallbackTake(s, r, sid, now);
    if s2 != s {
      TakeTables(s, sid, r, now);
      if r in s2.pending {
        TakeNoted(v, s.j, sid, r);
        PendingKept(v, s, s2, r);
      } else {
        PendingUntouched(v, s, s2);
      }
    }
  }

  lemma AdmitMovesOnly(v: Server, s: State, r: nat, githubId: int, login: string, lookupFails: bool)
    requires AllPendingOk(v, s)
    ensures var s2 := DoCallbackAdmit(v, s, r, githubId, login, lookupFails);
            s2.t == s.t && s2.j == s.j && AllPendingOk(v, s2)
  {
    var s2 := DoCallbackAdmit(v, s, r, githubId, login, lookupFails);
    if s2 != s { PendingKept(v, s, s2, r); }
  }

  lemma CallbackAdmitKeeps(v: Server, s: State, r: nat, githubId: int, login: string, lookupFails: bool)
    requires Inv(v, s)
    ensures var s2 := DoCallbackAdmit(v, s, r, githubId, login, lookupFails); Grows(s.j, s2.j) && Inv(v, s2)
  {
    AdmitMovesOnly(v, s, r, githubId, login, lookupFails);
  }

  lemma CallbackSignInKeeps(v: Server, s: State, r: nat, row: nat)
    requires Inv(v, s)
    ensures var s2 := DoCallbackSignIn(s, r, row); Grows(s.j, s2.j) && Inv(v, s2)
  {
    var s2 := DoCallbackSignIn(s, r, row);
    if s2 != s {
      var p := s.pending[r];
      assert PendingOk(v, s, r, p);
      RowNoted(v, s.j, row, p.githubId);
      SignInTables(s, row, p.githubId, p.login);
      PendingKept(v, s, s2, r);
    }
  }

  lemma CallbackMintKeeps(v: Server, s: State, r: nat, id: string, now: int)
    requires Inv(v, s)
    ensures var s2 := DoCallbackMint(s, r, id, now); Grows(s.j, s2.j) && Inv(v, s2)
  {
    var s2 := DoCallbackMint(s, r, id, now);
    if s2 != s {
      var p := s.pending[r];
      assert PendingOk(v, s, r, p);
      if id in s2.j.minted {
        var m := Minting(p.sid, p.grant, p.githubId, p.user, p.login, p.seen);
        MintNoted(v, s.j, id, m);
        MintTables(s, id, m, now);
      }
      PendingKept(v, s, s2, r);
    }
  }

  lemma TokenReadKeeps(v: Server, s: State, r: nat, grantType: string, form: Form, now: int)
    requires Inv(v, s)
    ensures var s2 := DoTokenRead(s, r, grantType, form, now); Grows(s.j, s2.j) && Inv(v, s2)
  {
    var s2 := DoTokenRead(s, r, grantType, form, now);
    if s2 != s { PendingKept(v, s, s2, r); }
  }

  lemma TokenMarkKeeps(v: Server, s: State, r: nat, now: int)
    requires Inv(v, s)
    ensures var s2 := DoTokenMark(s, r, now); Grows(s.j, s2.j) && Inv(v, s2)
  {
    var s2 := DoTokenMark(s, r, now);
    if s2 != s {
      var p := s.pending[r];
      assert PendingOk(v, s, r, p);
      if r in s2.pending {
        RedemptionNoted(v, s.j, p.form.code, r);
        MarkTables(s, p.form.code, r, now);
      }
      PendingKept(v, s, s2, r);
    }
  }

  /** The form repeats the grant and opens its challenge. */
  predicate TokenChecks(v: Server, s: State, r: nat)
    requires r in s.pending && s.pending[r].Redeemed?
  {
    var p := s.pending[r];
    p.row.grant.client == p.form.client && p.row.grant.redirectUri == p.form.redirectUri
    && VerifyPKCE(v.hash, p.form.verifier, p.row.grant)
  }

  lemma KeyIssued(v: Server, s: State, r: nat, id: string)
    requires Inv(v, s) && r in s.pending && s.pending[r].Redeemed? && id !in s.j.issued && TokenChecks(v, s, r)
    requires IssueKeyTx(s.t, id, s.pending[r].row.user).Some?
    ensures var p := s.pending[r];
            var i := Issue(p.form, p.row.grant, p.row.user);
            var s2 := Drop(s, r).(t := IssueKeyTx(s.t, id, i.user).value, j := NoteIssue(s.j, id, i));
            Grows(s.j, s2.j) && Inv(v, s2)
  {
    var p := s.pending[r];
    assert PendingOk(v, s, r, p);
    var i := Issue(p.form, p.row.grant, p.row.user);
    IssueNoted(v, s.j, id, i);
    IssueTables(s, id, i);
    PendingKept(v, s, Drop(s, r).(t := IssueKeyTx(s.t, id, i.user).value, j := NoteIssue(s.j, id, i)), r);
  }

  lemma TokenIssueKeeps(v: Server, s: State, r: nat, id: string)
    requires Inv(v, s)
    ensures var s2 := DoTokenIssue(v, s, r, id); Grows(s.j, s2.j) && Inv(v, s2)
  {
    if r in s.pending && s.pending[r].Redeemed? && id !in s.j.issued {
      if TokenChecks(v, s, r) && IssueKeyTx(s.t, id, s.pending[r].row.user).Some? {
        KeyIssued(v, s, r, id);
      } else {
        PendingKept(v, s, Drop(s, r), r);
      }
    }
  }

  lemma WebSignInKeeps(v: Server, s: State, row: nat, githubId: int, login: string)
    requires Inv(v, s)
    ensures var s2 := DoWebSignIn(s, row, githubId, login); Grows(s.j, s2.j) && Inv(v, s2)
  {
    var s2 := DoWebSignIn(s, row, githubId, login);
    if s2 != s {
      RowNoted(v, s.j, row, githubId);
      SignInTables(s, row, githubId, login);
      PendingUntouched(v, s, s2);
    }
  }

  lemma PruneKeeps(v: Server, s: State, cutoff: int)
    requires Inv(v, s)
    ensures Inv(v, s.(t := DropClients(s.t, Stale(s.t, cutoff))))
  {
    PruneTables(s.t, s.j, cutoff);
    PendingUntouched(v, s, s.(t := DropClients(s.t, Stale(s.t, cutoff))));
  }

  lemma DropUsersKeeps(v: Server, s: State, gone: set<nat>, invites: set<string>)
    requires Inv(v, s)
    ensures Inv(v, s.(t := DropUsers(s.t, gone).(invites := invites)))
  {
    DropUsersTables(s.t, s.j, gone);
    PendingUntouched(v, s, s.(t := DropUsers(s.t, gone).(invites := invites)));
  }

  lemma DropKeysKeeps(v: Server, s: State, holders: set<nat>)
    requires Inv(v, s)
    ensures Inv(v, s.(t := s.t.(keys := map k | k in s.t.keys && s.t.keys[k] !in holders :: s.t.keys[k])))
  {
    PendingUntouched(v, s, s.(t := s.t.(keys := map k | k in s.t.keys && s.t.keys[k] !in holders :: s.t.keys[k])));
  }

  lemma InvitesKeep(v: Server, s: State, invites: set<string>)
    requires Inv(v, s)
    ensures Inv(v, s.(t := s.t.(invites := invites)))
  {
    PendingUntouched(v, s, s.(t := s.t.(invites := invites)));
  }

  predicate OfCallback(op: Op) {
    op.CallbackTake? || op.CallbackAdmit? || op.CallbackSignIn? || op.CallbackMint?
  }

  lemma CallbackKeepsInv(v: Server, s: State, op: Op)
    requires Inv(v, s) && OfCallback(op)
    ensures Inv(v, Step(v, s, op)) && Grows(s.j, Step(v, s, op).j)
  {
    match op
    case CallbackTake(r, sid, now) => CallbackTakeKeeps(v, s, r, sid, now);
    case CallbackAdmit(r, githubId, login, lookupFails) => CallbackAdmitKeeps(v, s, r, githubId, login, lookupFails);
    case CallbackSignIn(r, row) => CallbackSignInKeeps(v, s, r, row);
    case CallbackMint(r, id, now) => CallbackMintKeeps(v, s, r, id, now);
  }

  lemma DeletionKeepsInv(v: Server, s: State, op: Op)
    requires Inv(v, s) && (op.DeleteUser? || op.RevokeKeys?)
    ensures Inv(v, Step(v, s, op)) && Grows(s.j, Step(v, s, op).j)
  {
    var target := NormalizeLogin(op.login);
    if op.DeleteUser? {
      DropUsersKeeps(v, s, UsersNamed(s.t, target), s.t.invites - {target});
    } else {
      DropKeysKeeps(v, s, UsersNamed(s.t, target));
    }
  }

  lemma AdminKeepsInv(v: Server, s: State, op: Op)
    requires Inv(v, s)
    requires op.WebSignIn? || op.Prune? || op.DeleteUser? || op.Invite? || op.Revoke? || op.RevokeKeys? || op.Abandon?
    ensures Inv(v, Step(v, s, op)) && Grows(s.j, Step(v, s, op).j)
  {
    match op
    case WebSignIn(row, githubId, login) => WebSignInKeeps(v, s, row, githubId, login);
    case Prune(cutoff) => PruneKeeps(v, s, cutoff);
    case DeleteUser(login) => DeletionKeepsInv(v, s, op);
    case RevokeKeys(login) => DeletionKeepsInv(v, s, op);
    case Invite(login) => if NormalizeLogin(login) != "" { InvitesKeep(v, s, s.t.invites + {NormalizeLogin(login)}); }
    case Revoke(login) => InvitesKeep(v, s, s.t.invites - {NormalizeLogin(login)});
    case Abandon(r) => PendingKept(v, s, Drop(s, r), r);
  }

  /** Every step keeps the invariant and only adds to the journal. */
  lemma StepKeepsInv(v: Server, s: State, op: Op)
    requires Inv(v, s)
    ensures Inv(v, Step(v, s, op)) && Grows(s.j, Step(v, s, op).j)
  {
    match op
    case Register(uris, authMethod, id, now) => RegisterKeeps(v, s, uris, authMethod, id, now);
    case AuthorizeLookup(r, responseType, g) => AuthorizeLookupKeeps(v, s, r, responseType, g);
    case AuthorizeStore(r, id, now) => AuthorizeStoreKeeps(v, s, r, id, now);
    case TokenRead(r, grantType, form, now) => TokenReadKeeps(v, s, r, grantType, form, now);
    case TokenMark(r, now) => TokenMarkKeeps(v, s, r, now);
    case TokenIssue(r, id) => TokenIssueKeeps(v, s, r, id);
    case _ => if OfCallback(op) { CallbackKeepsInv(v, s, op); } else { AdminKeepsInv(v, s, op); }
  }
}
