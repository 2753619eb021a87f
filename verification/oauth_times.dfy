/** How old the sessions and codes of a run are when they are accepted. */
module OAuthTimes {
  import opened Text
  import opened OAuth
  import opened OAuthFlow
  import opened OAuthRuns

  // What single steps do, with their times.

  predicate Stores(op: Op, sid: string, expiresAt: int) {
    op.AuthorizeStore? && op.freshId == sid && op.now + SESSION_TTL == expiresAt
  }

  predicate Mints(op: Op, code: string, expiresAt: int) {
    op.CallbackMint? && op.freshId == code && op.now + CODE_TTL == expiresAt
  }

  /** One step stores the session, the other takes it before it expires. */
  predicate TakesInTime(store: Op, take: Op, sid: string) {
    && store.AuthorizeStore? && store.freshId == sid
    && take.CallbackTake? && take.sid == sid && take.now <= store.now + SESSION_TTL
  }

  /** One step mints the code, the other reads it for this form before it expires. */
  predicate ReadsInTime(mint: Op, read: Op, form: Form) {
    && mint.CallbackMint? && mint.freshId == form.code
    && read.TokenRead? && read.form == form && read.now <= mint.now + CODE_TTL
  }

  // What a run did.

  predicate Stored(ops: seq<Op>, sid: string, expiresAt: int) {
    exists a | 0 <= a < |ops| :: Stores(ops[a], sid, expiresAt)
  }

  predicate Taken(ops: seq<Op>, sid: string) {
    exists a, b | 0 <= a < b < |ops| :: TakesInTime(ops[a], ops[b], sid)
  }

  /** First the session, then the code. */
  predicate Minted(ops: seq<Op>, sid: string, code: string, expiresAt: int) {
    exists a, b, c | 0 <= a < b < c < |ops| :: TakesInTime(ops[a], ops[b], sid) && Mints(ops[c], code, expiresAt)
  }

  /** Stored at a, taken at b, minted at c, read at d. */
  predicate ReadBy(ops: seq<Op>, a: nat, b: nat, c: nat, d: nat, sid: string, form: Form) {
    a < b < c < d < |ops| && TakesInTime(ops[a], ops[b], sid) && ReadsInTime(ops[c], ops[d], form)
  }

  ghost predicate Read(ops: seq<Op>, sid: string, form: Form) {
    exists a, b, c, d :: ReadBy(ops, a, b, c, d, sid, form)
  }

  // And so all that the tables, the requests and the journal hold was in time.

  ghost predicate SessionsTimely(ops: seq<Op>, s: State) {
    && (forall x <- s.t.sessions :: Stored(ops, x, s.t.sessions[x].expiresAt))
    && (forall x <- s.j.taken :: Taken(ops, x))
  }

  ghost predicate CodesTimely(ops: seq<Op>, s: State) {
    forall c <- s.t.codes :: c in s.j.minted && Minted(ops, s.j.minted[c].sid, c, s.t.codes[c].expiresAt)
  }

  ghost predicate FormTimely(ops: seq<Op>, minted: map<string, Minting>, form: Form) {
    form.code in minted && Read(ops, minted[form.code].sid, form)
  }

  ghost predicate PendingTimely(ops: seq<Op>, minted: map<string, Minting>, p: Pending) {
    p.Redeeming? || p.Redeemed? ==> FormTimely(ops, minted, p.form)
  }

  ghost predicate FormsTimely(ops: seq<Op>, s: State) {
    && (forall r <- s.pending :: PendingTimely(ops, s.j.minted, s.pending[r]))
    && (forall k <- s.j.issued :: FormTimely(ops, s.j.minted, s.j.issued[k].form))
  }

  ghost predicate Timely(ops: seq<Op>, s: State) {
    SessionsTimely(ops, s) && CodesTimely(ops, s) && FormsTimely(ops, s)
  }

  // A step more.

  lemma StoredLater(ops: seq<Op>, op: Op, sid: string, expiresAt: int)
    requires Stored(ops, sid, expiresAt) || Stores(op, sid, expiresAt)
    ensures Stored(ops + [op], sid, expiresAt)
  {
    var all := ops + [op];
    var a: nat := if Stores(op, sid, expiresAt) then |ops| else
                  var a :| 0 <= a < |ops| && Stores(ops[a], sid, expiresAt); a;
    assert Stores(all[a], sid, expiresAt);
  }

  lemma TakenLater(ops: seq<Op>, op: Op, sid: string, expiresAt: int)
    requires Taken(ops, sid)
             || (Stored(ops, sid, expiresAt) && op.CallbackTake? && op.sid == sid && op.now <= expiresAt)
    ensures Taken(ops + [op], sid)
  {
    var all := ops + [op];
    if Taken(ops, sid) {
      var a, b :| 0 <= a < b < |ops| && TakesInTime(ops[a], ops[b], sid);
      assert TakesInTime(all[a], all[b], sid);
    } else {
      var a :| 0 <= a < |ops| && Stores(ops[a], sid, expiresAt);
      assert TakesInTime(all[a], all[|ops|], sid);
    }
  }

  lemma MintedLater(ops: seq<Op>, op: Op, sid: string, code: string, expiresAt: int)
    requires Minted(ops, sid, code, expiresAt) || (Taken(ops, sid) && Mints(op, code, expiresAt))
    ensures Minted(ops + [op], sid, code, expiresAt)
  {
    var all := ops + [op];
    if Minted(ops, sid, code, expiresAt) {
      var a, b, c :| 0 <= a < b < c < |ops| && TakesInTime(ops[a], ops[b], sid) && Mints(ops[c], code, expiresAt);
      assert TakesInTime(all[a], all[b], sid) && Mints(all[c], code, expiresAt);
    } else {
      var a, b :| 0 <= a < b < |ops| && TakesInTime(ops[a], ops[b], sid);
      assert TakesInTime(all[a], all[b], sid) && Mints(all[|ops|], code, expiresAt);
    }
  }

  lemma ReadLater(ops: seq<Op>, op: Op, sid: string, form: Form)
    requires Read(ops, sid, form)
    ensures Read(ops + [op], sid, form)
  {
    var a, b, c, d :| ReadBy(ops, a, b, c, d, sid, form);
    assert ReadBy(ops + [op], a, b, c, d, sid, form);
  }

  lemma ReadNow(ops: seq<Op>, op: Op, sid: string, form: Form, expiresAt: int)
    requires Minted(ops, sid, form.code, expiresAt) && op.TokenRead? && op.form == form && op.now <= expiresAt
    ensures Read(ops + [op], sid, form)
  {
    var a, b, c :| 0 <= a < b < c < |ops| && TakesInTime(ops[a], ops[b], sid) && Mints(ops[c], form.code, expiresAt);
    assert ReadBy(ops + [op], a, b, c, |ops|, sid, form);
  }

  // Where the entries of the next state come from.

  lemma {:induction false} SessionIsOldOrStored(v: Server, s: State, op: Op, x: string)
    requires x in Step(v, s, op).t.sessions
    ensures var e := Step(v, s, op).t.sessions[x].expiresAt;
            (x in s.t.sessions && s.t.sessions[x].expiresAt == e) || Stores(op, x, e)
  {}

  lemma TakenIsOldOrLive(v: Server, s: State, op: Op, x: string)
    requires x in Step(v, s, op).j.taken
    ensures x in s.j.taken
            || (op.CallbackTake? && op.sid == x && x in s.t.sessions && op.now <= s.t.sessions[x].expiresAt)
  {}

  lemma {:induction false} NoCodeIsMinted(v: Server, s: State, op: Op, c: string)
    requires c in Step(v, s, op).t.codes && !op.CallbackMint?
    ensures c in s.t.codes && s.t.codes[c].expiresAt == Step(v, s, op).t.codes[c].expiresAt
  {}

  lemma CodeIsOldOrMinted(v: Server, s: State, op: Op, c: string)
    requires c in Step(v, s, op).t.codes
    ensures var (s2, e) := (Step(v, s, op), Step(v, s, op).t.codes[c].expiresAt);
            || (c in s.t.codes && s.t.codes[c].expiresAt == e)
            || (Mints(op, c, e) && op.r in s.pending && s.pending[op.r].SignedIn?
                && c in s2.j.minted && s2.j.minted[c].sid == s.pending[op.r].sid)
  {
    if !op.CallbackMint? { NoCodeIsMinted(v, s, op, c); }
  }

  lemma FormIsOldOrRead(v: Server, s: State, op: Op, r: nat)
    requires r in Step(v, s, op).pending
    ensures var p := Step(v, s, op).pending[r];
            p.Redeeming? || p.Redeemed? ==>
              || (r in s.pending && (s.pending[r].Redeeming? || s.pending[r].Redeemed?) && s.pending[r].form == p.form)
              || (op.TokenRead? && op.form == p.form && p.form.code in s.t.codes
                  && op.now <= s.t.codes[p.form.code].expiresAt)
  {}

  lemma IssueIsOldOrRedeemed(v: Server, s: State, op: Op, k: string)
    requires k in Step(v, s, op).j.issued
    ensures var form := Step(v, s, op).j.issued[k].form;
            || (k in s.j.issued && s.j.issued[k].form == form)
            || (op.TokenIssue? && op.r in s.pending && s.pending[op.r].Redeemed? && s.pending[op.r].form == form)
  {}

  lemma SessionsStayTimely(v: Server, s: State, ops: seq<Op>, op: Op)
    requires SessionsTimely(ops, s)
    ensures SessionsTimely(ops + [op], Step(v, s, op))
  {
    var (s2, all) := (Step(v, s, op), ops + [op]);
    forall x | x in s2.t.sessions ensures Stored(all, x, s2.t.sessions[x].expiresAt) {
      SessionIsOldOrStored(v, s, op, x);
      StoredLater(ops, op, x, s2.t.sessions[x].expiresAt);
    }
    forall x | x in s2.j.taken ensures Taken(all, x) {
      TakenIsOldOrLive(v, s, op, x);
      TakenLater(ops, op, x, if x in s.t.sessions then s.t.sessions[x].expiresAt else 0);
    }
  }

  lemma CodesStayTimely(v: Server, s: State, ops: seq<Op>, op: Op)
    requires Inv(v, s) && SessionsTimely(ops, s) && CodesTimely(ops, s)
    ensures CodesTimely(ops + [op], Step(v, s, op))
  {
    var s2 := Step(v, s, op);
    StepKeepsInv(v, s, op);
    forall c | c in s2.t.codes
      ensures c in s2.j.minted && Minted(ops + [op], s2.j.minted[c].sid, c, s2.t.codes[c].expiresAt)
    {
      CodeIsOldOrMinted(v, s, op, c);
      if c !in s.t.codes || s.t.codes[c].expiresAt != s2.t.codes[c].expiresAt {
        assert PendingOk(v, s, op.r, s.pending[op.r]);
      }
      MintedLater(ops, op, s2.j.minted[c].sid, c, s2.t.codes[c].expiresAt);
    }
  }

  /** A form that was read in time, and one that is read now. */
  lemma FormStaysTimely(s: State, s2: State, ops: seq<Op>, op: Op, form: Form)
    requires Extends(s.j.minted, s2.j.minted) && CodesTimely(ops, s)
    requires FormTimely(ops, s.j.minted, form)
             || (op.TokenRead? && op.form == form && form.code in s.t.codes && op.now <= s.t.codes[form.code].expiresAt)
    ensures FormTimely(ops + [op], s2.j.minted, form)
  {
    var sid := s.j.minted[form.code].sid;
    if FormTimely(ops, s.j.minted, form) {
      ReadLater(ops, op, sid, form);
    } else {
      ReadNow(ops, op, sid, form, s.t.codes[form.code].expiresAt);
    }
  }

  lemma FormsStayTimely(v: Server, s: State, ops: seq<Op>, op: Op)
    requires Inv(v, s) && CodesTimely(ops, s) && FormsTimely(ops, s)
    ensures FormsTimely(ops + [op], Step(v, s, op))
  {
    var (s2, all) := (Step(v, s, op), ops + [op]);
    StepKeepsInv(v, s, op);
    forall r | r in s2.pending ensures PendingTimely(all, s2.j.minted, s2.pending[r]) {
      var p := s2.pending[r];
      if p.Redeeming? || p.Redeemed? {
        FormIsOldOrRead(v, s, op, r);
        assert r in s.pending ==> PendingTimely(ops, s.j.minted, s.pending[r]);
        FormStaysTimely(s, s2, ops, op, p.form);
      }
    }
    forall k | k in s2.j.issued ensures FormTimely(all, s2.j.minted, s2.j.issued[k].form) {
      IssueIsOldOrRedeemed(v, s, op, k);
      if k !in s.j.issued || s.j.issued[k].form != s2.j.issued[k].form {
        assert PendingTimely(ops, s.j.minted, s.pending[op.r]);
      }
      FormStaysTimely(s, s2, ops, op, s2.j.issued[k].form);
    }
  }

  lemma {:induction false} RunIsTimely(v: Server, ops: seq<Op>)
    ensures Timely(ops, Run(v, EMPTY, ops))
  {
    if ops != [] {
      var (n, last) := (|ops| - 1, ops[|ops| - 1]);
      var s := Run(v, EMPTY, ops[..n]);
      RunIsTimely(v, ops[..n]);
      RunKeepsInv(v, EMPTY, ops[..n]);
      RunJoins(v, EMPTY, ops[..n], [last]);
      assert ops[..n] + [last] == ops && Run(v, s, [last]) == Run(v, Step(v, s, last), []);
      SessionsStayTimely(v, s, ops[..n], last);
      CodesStayTimely(v, s, ops[..n], last);
      FormsStayTimely(v, s, ops[..n], last);
    }
  }

  /** Behind every key stand, one after the other: its session was stored, and taken within SESSION_TTL;
      its code was minted, and read within CODE_TTL for the very form that the key was issued on. */
  lemma KeysAreMadeInTime(v: Server, ops: seq<Op>, k: string)
    requires k in Run(v, EMPTY, ops).j.issued
    ensures var j := Run(v, EMPTY, ops).j; var form := j.issued[k].form;
            form.code in j.minted
            && exists a, b, c, d :: ReadBy(ops, a, b, c, d, j.minted[form.code].sid, form)
  {
    RunIsTimely(v, ops);
    var j := Run(v, EMPTY, ops).j;
    assert FormTimely(ops, j.minted, j.issued[k].form);
  }

  // Registrations that are pruned.

  predicate Registers(op: Op, client: string, when: int) {
    op.Register? && op.freshId == client && op.now == when
  }

  predicate Registered(ops: seq<Op>, client: string, when: int) {
    exists n | 0 <= n < |ops| :: Registers(ops[n], client, when)
  }

  /** A client is marked as used only if a code of its was redeemed. */
  ghost predicate WasRedeemed(j: Journal, client: string) {
    exists c <- j.redeemer :: c in j.minted && j.minted[c].grant.client == client
  }

  /** The clients are as old as their registrations, and those in use have earned it. */
  ghost predicate ClientsDated(ops: seq<Op>, s: State) {
    forall x <- s.t.clients ::
      Registered(ops, x, s.t.clients[x].createdAt) && (s.t.clients[x].lastUsedAt.Some? ==> WasRedeemed(s.j, x))
  }

  lemma RegisteredLater(ops: seq<Op>, op: Op, client: string, when: int)
    requires Registered(ops, client, when) || Registers(op, client, when)
    ensures Registered(ops + [op], client, when)
  {
    var all := ops + [op];
    var n: nat := if Registers(op, client, when) then |ops| else
                  var n :| 0 <= n < |ops| && Registers(ops[n], client, when); n;
    assert Registers(all[n], client, when);
  }

  lemma ClientIsOldOrNew(v: Server, s: State, op: Op, x: string)
    requires x in Step(v, s, op).t.clients
    ensures var when := Step(v, s, op).t.clients[x].createdAt;
            (x in s.t.clients && s.t.clients[x].createdAt == when) || Registers(op, x, when)
  {}

  lemma UseIsOldOrRedeemed(v: Server, s: State, op: Op, x: string)
    requires x in Step(v, s, op).t.clients && Step(v, s, op).t.clients[x].lastUsedAt.Some?
    ensures || (x in s.t.clients && s.t.clients[x].lastUsedAt.Some?)
            || (Redeems(s, op).Some? && Redeems(s, op).value in s.t.codes
                && s.t.codes[Redeems(s, op).value].grant.client == x)
  {}

  lemma RedeemedLater(v: Server, s: State, op: Op, x: string)
    requires Inv(v, s) && x in Step(v, s, op).t.clients && Step(v, s, op).t.clients[x].lastUsedAt.Some?
    requires x in s.t.clients && s.t.clients[x].lastUsedAt.Some? ==> WasRedeemed(s.j, x)
    ensures WasRedeemed(Step(v, s, op).j, x)
  {
    var j2 := Step(v, s, op).j;
    StepKeepsInv(v, s, op);
    UseIsOldOrRedeemed(v, s, op, x);
    if x in s.t.clients && s.t.clients[x].lastUsedAt.Some? {
      var c :| c in s.j.redeemer && c in s.j.minted && s.j.minted[c].grant.client == x;
      assert c in j2.redeemer && c in j2.minted && j2.minted[c].grant.client == x;
    } else {
      var c := Redeems(s, op).value;
      RedeemedIsNew(v, s, op);
      assert RowIs(s.j.minted, c, s.t.codes[c].grant, s.t.codes[c].user);
      assert c in j2.redeemer && c in j2.minted && j2.minted[c].grant.client == x;
    }
  }

  lemma StepKeepsDates(v: Server, s: State, ops: seq<Op>, op: Op)
    requires Inv(v, s) && ClientsDated(ops, s)
    ensures ClientsDated(ops + [op], Step(v, s, op))
  {
    var s2 := Step(v, s, op);
    forall x | x in s2.t.clients
      ensures Registered(ops + [op], x, s2.t.clients[x].createdAt)
      ensures s2.t.clients[x].lastUsedAt.Some? ==> WasRedeemed(s2.j, x)
    {
      ClientIsOldOrNew(v, s, op, x);
      RegisteredLater(ops, op, x, s2.t.clients[x].createdAt);
      if s2.t.clients[x].lastUsedAt.Some? { RedeemedLater(v, s, op, x); }
    }
  }

  lemma {:induction false} RunKeepsDates(v: Server, ops: seq<Op>)
    ensures ClientsDated(ops, Run(v, EMPTY, ops))
  {
    if ops != [] {
      var (n, last) := (|ops| - 1, ops[|ops| - 1]);
      var s := Run(v, EMPTY, ops[..n]);
      RunKeepsDates(v, ops[..n]);
      RunKeepsInv(v, EMPTY, ops[..n]);
      RunJoins(v, EMPTY, ops[..n], [last]);
      assert ops[..n] + [last] == ops && Run(v, s, [last]) == Run(v, Step(v, s, last), []);
      StepKeepsDates(v, s, ops[..n], last);
    }
  }

  /** In every run a prune spares exactly the registrations that a code was ever redeemed for, and those made
      at the cutoff or after it. */
  lemma {:induction false} PruneSparesExactly(v: Server, ops: seq<Op>, cutoff: int, client: string)
    requires client in Run(v, EMPTY, ops).t.clients
    ensures var s := Run(v, EMPTY, ops); var when := s.t.clients[client].createdAt;
            && Registered(ops, client, when)
            && (client in Step(v, s, Prune(cutoff)).t.clients <==> WasRedeemed(s.j, client) || when >= cutoff)
  {
    var s := Run(v, EMPTY, ops);
    RunKeepsDates(v, ops);
    RunKeepsInv(v, EMPTY, []);
    RunKeepsService(v, EMPTY, ops);
    if WasRedeemed(s.j, client) {
      var c :| c in s.j.redeemer && c in s.j.minted && s.j.minted[c].grant.client == client;
      assert Used(s.t.clients, s.j.minted[c].grant.client);
    }
  }
}
