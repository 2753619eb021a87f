/** The authorization server lets people in: a visit whose requests are in order ends with a key, whatever
    other requests do in between. */
module FlowCompletes {
  import opened Text
  import opened OAuth
  import opened OAuthFlow

  /** One person's way from registration to key: the requests it takes, what the random source gives them,
      and when. */
  datatype Visit = Visit(
    asking: nat, returning: nat, redeeming: nat,  // the requests to /authorize, the callback and /token
    uris: seq<string>, grant: Grant, form: Form,
    sid: string, code: string, key: string,
    githubId: int, login: string, row: nat,
    registered: int, stored: int, taken: int, minted: int, read: int, marked: int)

  /** The n-th of its steps. */
  function OwnOp(x: Visit, n: nat): Op
    requires n < 10
  {
    match n
    case 0 => Register(x.uris, "none", x.grant.client, x.registered)
    case 1 => AuthorizeLookup(x.asking, "code", x.grant)
    case 2 => AuthorizeStore(x.asking, x.sid, x.stored)
    case 3 => CallbackTake(x.returning, x.sid, x.taken)
    case 4 => CallbackAdmit(x.returning, x.githubId, x.login, false)
    case 5 => CallbackSignIn(x.returning, x.row)
    case 6 => CallbackMint(x.returning, x.code, x.minted)
    case 7 => TokenRead(x.redeeming, "authorization_code", x.form, x.read)
    case 8 => TokenMark(x.redeeming, x.marked)
    case 9 => TokenIssue(x.redeeming, x.key)
  }

  function Steps(x: Visit): seq<Op> { seq(10, n requires 0 <= n < 10 => OwnOp(x, n)) }

  /** The requests are in order and in time. */
  predicate InOrder(v: Server, x: Visit) {
    && x.asking != x.returning && x.asking != x.redeeming && x.returning != x.redeeming
    && x.grant.client != "" && x.grant.redirectUri != "" && x.grant.redirectUri in x.uris
    && (forall u <- x.uris :: v.validUri(u))
    && x.grant.challenge != "" && x.grant.challengeMethod == "S256"
    && x.form.code == x.code && x.form.client == x.grant.client && x.form.redirectUri == x.grant.redirectUri
    && x.code != "" && x.form.verifier != "" && v.hash(x.form.verifier) == x.grant.challenge
    && x.taken <= x.stored + SESSION_TTL && x.read <= x.minted + CODE_TTL
  }

  predicate Own(x: Visit, r: nat) { r == x.asking || r == x.returning || r == x.redeeming }

  /** A step of somebody else: of another request, session, code and account, with other random ids. The
      administrator leaves accounts and invites alone, and prunes no registration as young as this one. */
  predicate Bystander(x: Visit, op: Op) {
    match op
    case Register(_, _, id, _) => id != x.grant.client
    case AuthorizeLookup(r, _, _) => !Own(x, r)
    case AuthorizeStore(r, id, _) => !Own(x, r) && id != x.sid
    case CallbackTake(r, sid, _) => !Own(x, r) && sid != x.sid
    case CallbackAdmit(r, githubId, _, _) => !Own(x, r) && githubId != x.githubId
    case CallbackSignIn(r, row) => !Own(x, r) && row != x.row
    case CallbackMint(r, id, _) => !Own(x, r) && id != x.code
    case TokenRead(r, _, form, _) => !Own(x, r) && form.code != x.code
    case TokenMark(r, _) => !Own(x, r)
    case TokenIssue(r, id) => !Own(x, r) && id != x.key
    case WebSignIn(row, githubId, _) => row != x.row && githubId != x.githubId
    case Prune(cutoff) => cutoff <= x.registered
    case Abandon(r) => !Own(x, r)
    case _ => false
  }

  /** The steps in their order, and bystanders anywhere between them. */
  ghost predicate Shuffled(x: Visit, steps: seq<Op>, ops: seq<Op>)
    decreases |ops|
  {
    if ops == [] then steps == [] else
    || (steps != [] && ops[0] == steps[0] && Shuffled(x, steps[1..], ops[1..]))
    || (Bystander(x, ops[0]) && Shuffled(x, steps, ops[1..]))
  }

  // What holds after n of the steps.

  predicate PendingApart(x: Visit, p: Pending) {
    (p.Admitted? ==> p.githubId != x.githubId) && (p.Redeeming? ==> p.form.code != x.code)
  }

  /** No other request is about this account or this code. */
  ghost predicate Apart(x: Visit, s: State) {
    forall q <- s.pending | !Own(x, q) :: PendingApart(x, s.pending[q])
  }

  /** The random ids that are still to come are new. */
  predicate Fresh(x: Visit, j: Journal, n: nat) {
    && (n < 1 ==> x.grant.client !in j.registered) && (n < 3 ==> x.sid !in j.authorized)
    && (n < 7 ==> x.code !in j.minted) && (n < 10 ==> x.key !in j.issued)
  }

  predicate Waits(s: State, r: nat, p: Pending) { r in s.pending && s.pending[r] == p }

  predicate HasSigned(x: Visit, p: Pending, n: nat) {
    if n == 5
    then p.Admitted? && p.sid == x.sid && p.grant == x.grant && p.githubId == x.githubId && p.login == x.login
    else p.SignedIn? && p.sid == x.sid && p.grant == x.grant && p.githubId == x.githubId && p.user == x.row
  }

  /** Where the visit's own requests stand. */
  predicate Slots(x: Visit, s: State, n: nat) {
    && (n < 2 ==> x.asking !in s.pending) && (n < 4 ==> x.returning !in s.pending)
    && (n < 8 ==> x.redeeming !in s.pending)
    && (n == 2 ==> Waits(s, x.asking, Authorizing(x.grant)))
    && (n == 4 ==> Waits(s, x.returning, Returned(x.sid, x.grant)))
    && (n == 5 || n == 6 ==> x.returning in s.pending && HasSigned(x, s.pending[x.returning], n))
    && (n == 8 ==> Waits(s, x.redeeming, Redeeming(x.form, Code(x.row, x.grant, false, x.minted + CODE_TTL))))
    && (n == 9 ==> Waits(s, x.redeeming, Redeemed(x.form, Code(x.row, x.grant, false, x.minted + CODE_TTL))))
  }

  /** The client is there, as it was registered. */
  predicate ClientHeld(x: Visit, clients: map<string, Client>, n: nat) {
    n >= 1 ==>
      && x.grant.client in clients && clients[x.grant.client].redirectUris == x.uris
      && clients[x.grant.client].createdAt == x.registered
  }

  predicate SessionHeld(x: Visit, sessions: map<string, Session>, n: nat) {
    n == 3 ==> x.sid in sessions && sessions[x.sid] == Session(x.grant, x.stored + SESSION_TTL)
  }

  /** The account has its row, or none and the row is new. */
  predicate AccountHeld(x: Visit, s: State, n: nat) {
    if x.row in s.t.users then s.t.users[x.row].githubId == x.githubId
    else n < 6 && x.row !in s.j.rows && forall u <- s.t.users :: s.t.users[u].githubId != x.githubId
  }

  predicate CodeHeld(x: Visit, codes: map<string, Code>, n: nat) {
    n == 7 || n == 8 ==> x.code in codes && codes[x.code] == Code(x.row, x.grant, false, x.minted + CODE_TTL)
  }

  ghost predicate Held(v: Server, x: Visit, s: State, n: nat) {
    && Apart(x, s) && Fresh(x, s.j, n) && Slots(x, s, n)
    && ClientHeld(x, s.t.clients, n) && SessionHeld(x, s.t.sessions, n) && AccountHeld(x, s, n)
    && CodeHeld(x, s.t.codes, n) && (n < 5 ==> v.admits(Some(s.t.invites), x.login))
    && (n == 10 ==> x.key in s.t.keys && s.t.keys[x.key] == x.row)
  }

  ghost predicate Stage(v: Server, x: Visit, s: State, n: nat) { Inv(v, s) && Held(v, x, s, n) }

  // A bystander's step changes none of it.

  lemma {:induction false} BystandersStayApart(v: Server, x: Visit, s: State, op: Op)
    requires Bystander(x, op) && Apart(x, s)
    ensures Apart(x, Step(v, s, op))
  {}

  lemma {:induction false} IdsStayFreshAtCallback(v: Server, x: Visit, s: State, op: Op, n: nat)
    requires Bystander(x, op) && OfCallback(op) && Fresh(x, s.j, n)
    ensures Fresh(x, Step(v, s, op).j, n)
  {}

  lemma {:induction false} IdsStayFreshElse(v: Server, x: Visit, s: State, op: Op, n: nat)
    requires Bystander(x, op) && !OfCallback(op) && Fresh(x, s.j, n)
    ensures Fresh(x, Step(v, s, op).j, n)
  {}

  lemma {:induction false} IdsStayFresh(v: Server, x: Visit, s: State, op: Op, n: nat)
    requires Bystander(x, op) && Fresh(x, s.j, n)
    ensures Fresh(x, Step(v, s, op).j, n)
  {
    if OfCallback(op) { IdsStayFreshAtCallback(v, x, s, op, n); } else { IdsStayFreshElse(v, x, s, op, n); }
  }

  lemma {:induction false} OwnRequestsWait(v: Server, x: Visit, s: State, op: Op, r: nat)
    requires Bystander(x, op) && Own(x, r)
    ensures var s2 := Step(v, s, op);
            (r in s2.pending <==> r in s.pending) && (r in s.pending ==> s2.pending[r] == s.pending[r])
  {}

  lemma {:induction false} ClientStays(v: Server, x: Visit, s: State, op: Op, n: nat)
    requires Bystander(x, op) && ClientHeld(x, s.t.clients, n)
    ensures ClientHeld(x, Step(v, s, op).t.clients, n)
  {}

  lemma {:induction false} SessionStaysAtCallback(v: Server, x: Visit, s: State, op: Op, n: nat)
    requires Bystander(x, op) && OfCallback(op) && SessionHeld(x, s.t.sessions, n) && ClientHeld(x, s.t.clients, n)
    ensures SessionHeld(x, Step(v, s, op).t.sessions, n)
  {}

  lemma {:induction false} SessionStaysElse(v: Server, x: Visit, s: State, op: Op, n: nat)
    requires Bystander(x, op) && !OfCallback(op) && SessionHeld(x, s.t.sessions, n) && ClientHeld(x, s.t.clients, n)
    ensures SessionHeld(x, Step(v, s, op).t.sessions, n)
  {}

  lemma {:induction false} SessionStays(v: Server, x: Visit, s: State, op: Op, n: nat)
    requires Bystander(x, op) && SessionHeld(x, s.t.sessions, n) && ClientHeld(x, s.t.clients, n)
    ensures SessionHeld(x, Step(v, s, op).t.sessions, n)
  {
    if OfCallback(op) { SessionStaysAtCallback(v, x, s, op, n); } else { SessionStaysElse(v, x, s, op, n); }
  }

  lemma {:induction false} AccountStaysAtCallback(v: Server, x: Visit, s: State, op: Op, n: nat)
    requires Bystander(x, op) && OfCallback(op) && AccountHeld(x, s, n) && Apart(x, s)
    ensures AccountHeld(x, Step(v, s, op), n)
  {}

  lemma {:induction false} UsersStay(v: Server, x: Visit, s: State, op: Op)
    requires Bystander(x, op) && !OfCallback(op) && !op.WebSignIn?
    ensures Step(v, s, op).t.users == s.t.users && Step(v, s, op).j.rows == s.j.rows
  {}

  lemma {:induction false} AccountStaysElse(v: Server, x: Visit, s: State, op: Op, n: nat)
    requires Bystander(x, op) && !OfCallback(op) && AccountHeld(x, s, n) && Apart(x, s)
    ensures AccountHeld(x, Step(v, s, op), n)
  {
    if !op.WebSignIn? { UsersStay(v, x, s, op); }
  }

  lemma {:induction false} AccountStays(v: Server, x: Visit, s: State, op: Op, n: nat)
    requires Bystander(x, op) && AccountHeld(x, s, n) && Apart(x, s)
    ensures AccountHeld(x, Step(v, s, op), n)
  {
    if OfCallback(op) { AccountStaysAtCallback(v, x, s, op, n); } else { AccountStaysElse(v, x, s, op, n); }
  }

  lemma {:induction false} CodeStaysAtCallback(v: Server, x: Visit, s: State, op: Op, n: nat)
    requires Bystander(x, op) && OfCallback(op) && Apart(x, s)
    requires CodeHeld(x, s.t.codes, n) && ClientHeld(x, s.t.clients, n)
    ensures CodeHeld(x, Step(v, s, op).t.codes, n)
  {}

  lemma {:induction false} CodeStaysElse(v: Server, x: Visit, s: State, op: Op, n: nat)
    requires Bystander(x, op) && !OfCallback(op) && Apart(x, s)
    requires CodeHeld(x, s.t.codes, n) && ClientHeld(x, s.t.clients, n)
    ensures CodeHeld(x, Step(v, s, op).t.codes, n)
  {}

  lemma {:induction false} CodeStays(v: Server, x: Visit, s: State, op: Op, n: nat)
    requires Bystander(x, op) && CodeHeld(x, s.t.codes, n) && ClientHeld(x, s.t.clients, n) && Apart(x, s)
    ensures CodeHeld(x, Step(v, s, op).t.codes, n)
  {
    if OfCallback(op) { CodeStaysAtCallback(v, x, s, op, n); } else { CodeStaysElse(v, x, s, op, n); }
  }

  lemma {:induction false} InvitesAndKeysStay(v: Server, x: Visit, s: State, op: Op)
    requires Bystander(x, op)
    ensures Step(v, s, op).t.invites == s.t.invites
    ensures forall k <- s.t.keys :: k in Step(v, s, op).t.keys && Step(v, s, op).t.keys[k] == s.t.keys[k]
  {}

  lemma {:induction false} BystanderKeeps(v: Server, x: Visit, s: State, op: Op, n: nat)
    requires Stage(v, x, s, n) && Bystander(x, op)
    ensures Stage(v, x, Step(v, s, op), n)
  {
    StepKeepsInv(v, s, op);
    BystandersStayApart(v, x, s, op);
    IdsStayFresh(v, x, s, op, n);
    OwnRequestsWait(v, x, s, op, x.asking);
    OwnRequestsWait(v, x, s, op, x.returning);
    OwnRequestsWait(v, x, s, op, x.redeeming);
    ClientStays(v, x, s, op, n);
    SessionStays(v, x, s, op, n);
    AccountStays(v, x, s, op, n);
    CodeStays(v, x, s, op, n);
    InvitesAndKeysStay(v, x, s, op);
  }

  // Each of its own steps takes it further.

  lemma {:induction false} Registers(v: Server, x: Visit, s: State)
    requires InOrder(v, x) && Stage(v, x, s, 0)
    ensures Held(v, x, DoRegister(v, s, x.uris, "none", x.grant.client, x.registered), 1)
  {}

  lemma {:induction false} LooksUp(v: Server, x: Visit, s: State)
    requires InOrder(v, x) && Stage(v, x, s, 1)
    ensures Held(v, x, DoAuthorizeLookup(s, x.asking, "code", x.grant), 2)
  {}

  lemma {:induction false} Stores(v: Server, x: Visit, s: State)
    requires InOrder(v, x) && Stage(v, x, s, 2)
    ensures Held(v, x, DoAuthorizeStore(s, x.asking, x.sid, x.stored), 3)
  {}

  lemma {:induction false} Takes(v: Server, x: Visit, s: State)
    requires InOrder(v, x) && Stage(v, x, s, 3)
    ensures Held(v, x, DoCallbackTake(s, x.returning, x.sid, x.taken), 4)
  {}

  lemma {:induction false} IsLetIn(v: Server, x: Visit, s: State)
    requires InOrder(v, x) && Stage(v, x, s, 4)
    ensures Held(v, x, DoCallbackAdmit(v, s, x.returning, x.githubId, x.login, false), 5)
  {}

  lemma {:induction false} SignsIn(v: Server, x: Visit, s: State)
    requires InOrder(v, x) && Stage(v, x, s, 5)
    ensures Held(v, x, DoCallbackSignIn(s, x.returning, x.row), 6)
  {}

  lemma {:induction false} Mints(v: Server, x: Visit, s: State)
    requires InOrder(v, x) && Stage(v, x, s, 6)
    ensures Held(v, x, DoCallbackMint(s, x.returning, x.code, x.minted), 7)
  {}

  lemma {:induction false} Reads(v: Server, x: Visit, s: State)
    requires InOrder(v, x) && Stage(v, x, s, 7)
    ensures Held(v, x, DoTokenRead(s, x.redeeming, "authorization_code", x.form, x.read), 8)
  {}

  lemma {:induction false} Marks(v: Server, x: Visit, s: State)
    requires InOrder(v, x) && Stage(v, x, s, 8)
    ensures Held(v, x, DoTokenMark(s, x.redeeming, x.marked), 9)
  {}

  lemma {:induction false} Issues(v: Server, x: Visit, s: State)
    requires InOrder(v, x) && Stage(v, x, s, 9)
    ensures Held(v, x, DoTokenIssue(v, s, x.redeeming, x.key), 10)
  {}

  /** What the n-th step does. */
  function OwnStep(v: Server, x: Visit, s: State, n: nat): State
    requires n < 10
  {
    match n
    case 0 => DoRegister(v, s, x.uris, "none", x.grant.client, x.registered)
    case 1 => DoAuthorizeLookup(s, x.asking, "code", x.grant)
    case 2 => DoAuthorizeStore(s, x.asking, x.sid, x.stored)
    case 3 => DoCallbackTake(s, x.returning, x.sid, x.taken)
    case 4 => DoCallbackAdmit(v, s, x.returning, x.githubId, x.login, false)
    case 5 => DoCallbackSignIn(s, x.returning, x.row)
    case 6 => DoCallbackMint(s, x.returning, x.code, x.minted)
    case 7 => DoTokenRead(s, x.redeeming, "authorization_code", x.form, x.read)
    case 8 => DoTokenMark(s, x.redeeming, x.marked)
    case 9 => DoTokenIssue(v, s, x.redeeming, x.key)
  }

  lemma {:induction false} OwnStepIsStep(v: Server, x: Visit, s: State, n: nat)
    requires n < 10
    ensures Step(v, s, OwnOp(x, n)) == OwnStep(v, x, s, n)
  {}

  lemma {:induction false} OwnStepHolds(v: Server, x: Visit, s: State, n: nat, s2: State)
    requires InOrder(v, x) && n < 10 && Stage(v, x, s, n) && s2 == OwnStep(v, x, s, n)
    ensures Held(v, x, s2, n + 1)
  {
    match n
    case 0 => Registers(v, x, s);
    case 1 => LooksUp(v, x, s);
    case 2 => Stores(v, x, s);
    case 3 => Takes(v, x, s);
    case 4 => IsLetIn(v, x, s);
    case 5 => SignsIn(v, x, s);
    case 6 => Mints(v, x, s);
    case 7 => Reads(v, x, s);
    case 8 => Marks(v, x, s);
    case 9 => Issues(v, x, s);
  }

  lemma {:induction false} OwnStepGoesOn(v: Server, x: Visit, s: State, n: nat)
    requires InOrder(v, x) && n < 10 && Stage(v, x, s, n)
    ensures Stage(v, x, Step(v, s, OwnOp(x, n)), n + 1)
  {
    StepKeepsInv(v, s, OwnOp(x, n));
    OwnStepIsStep(v, x, s, n);
    OwnStepHolds(v, x, s, n, OwnStep(v, x, s, n));
  }

  lemma {:induction false} VisitGoesOn(v: Server, x: Visit, s: State, n: nat, ops: seq<Op>)
    requires InOrder(v, x) && n <= 10 && Stage(v, x, s, n) && Shuffled(x, Steps(x)[n..], ops)
    ensures Stage(v, x, Run(v, s, ops), 10)
    decreases |ops|
  {
    if ops != [] {
      var steps := Steps(x)[n..];
      if steps != [] && ops[0] == steps[0] && Shuffled(x, steps[1..], ops[1..]) {
        assert steps[1..] == Steps(x)[n + 1..];
        OwnStepGoesOn(v, x, s, n);
        VisitGoesOn(v, x, Step(v, s, ops[0]), n + 1, ops[1..]);
      } else {
        BystanderKeeps(v, x, s, ops[0], n);
        VisitGoesOn(v, x, Step(v, s, ops[0]), n, ops[1..]);
      }
    }
  }

  /** Nothing of the visit has happened yet, and its login is let in. */
  ghost predicate AtTheDoor(v: Server, x: Visit, s: State) {
    && Inv(v, s) && v.admits(Some(s.t.invites), x.login)
    && (forall q <- s.pending :: !Own(x, q) && PendingApart(x, s.pending[q]))
    && Fresh(x, s.j, 0) && AccountHeld(x, s, 0)
  }

  /** From any reachable state, a visit whose requests are in order and in time ends with its key, for its
      account, whatever bystanders do before, between and after its steps. */
  lemma {:induction false} VisitEndsWithKey(v: Server, x: Visit, s: State, ops: seq<Op>)
    requires InOrder(v, x) && AtTheDoor(v, x, s) && Shuffled(x, Steps(x), ops)
    ensures var t := Run(v, s, ops).t;
            && x.key in t.keys && t.keys[x.key] == x.row
            && x.row in t.users && t.users[x.row].githubId == x.githubId
  {
    assert Steps(x)[0..] == Steps(x);
    VisitGoesOn(v, x, s, 0, ops);
  }
}
