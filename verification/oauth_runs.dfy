/** What every run of the authorization server guarantees, however its requests interleave. */
module OAuthRuns {
  import opened Text
  import opened OAuth
  import opened OAuthFlow

  lemma {:induction false} RunKeepsInv(v: Server, s: State, ops: seq<Op>)
    requires Inv(v, s)
    ensures Inv(v, Run(v, s, ops)) && Grows(s.j, Run(v, s, ops).j)
    decreases |ops|
  {
    if ops != [] {
      StepKeepsInv(v, s, ops[0]);
      RunKeepsInv(v, Step(v, s, ops[0]), ops[1..]);
    }
  }

  lemma {:induction false} RunJoins(v: Server, s: State, a: seq<Op>, b: seq<Op>)
    ensures Run(v, s, a + b) == Run(v, Run(v, s, a), b)
    decreases |a|
  {
    if a == [] {
      assert a + b == b;
    } else {
      assert (a + b)[0] == a[0] && (a + b)[1..] == a[1..] + b;
      RunJoins(v, Step(v, s, a[0]), a[1..], b);
    }
  }

  /** Rows never point at missing rows, whatever was pruned or deleted on the way. */
  lemma NothingDangles(v: Server, ops: seq<Op>)
    ensures var t := Run(v, EMPTY, ops).t;
            && (forall x <- t.sessions :: t.sessions[x].grant.client in t.clients)
            && (forall c <- t.codes :: t.codes[c].grant.client in t.clients && t.codes[c].user in t.users)
            && (forall k <- t.keys :: t.keys[k] in t.users)
  {
    RunKeepsInv(v, EMPTY, ops);
  }

  /** A stored key was issued, and the row it opens is that of the GitHub account that signed in. */
  lemma KeyOpensItsAccount(v: Server, ops: seq<Op>, k: string)
    requires k in Run(v, EMPTY, ops).t.keys
    ensures var (t, j) := (Run(v, EMPTY, ops).t, Run(v, EMPTY, ops).j);
      && k in j.issued && j.issued[k].form.code in j.minted && var m := j.minted[j.issued[k].form.code];
      && t.keys[k] == m.user && m.user in t.users && t.users[m.user].githubId == m.githubId
  {
    RunKeepsInv(v, EMPTY, ops);
    var s := Run(v, EMPTY, ops);
    assert IssueOk(v, s.j.minted, s.j.redeemer, s.j.keyOf, k, s.j.issued[k]);
    var c := s.j.issued[k].form.code;
    assert MintingOk(v, s.j.authorized, s.j.codeOf, s.j.rows, c, s.j.minted[c]);
  }

  /** Two keys never come from one code, nor from one authorize request. */
  lemma KeysAreApart(v: Server, ops: seq<Op>, k1: string, k2: string)
    requires k1 in Run(v, EMPTY, ops).j.issued && k2 in Run(v, EMPTY, ops).j.issued && k1 != k2
    ensures var j := Run(v, EMPTY, ops).j;
            var (c1, c2) := (j.issued[k1].form.code, j.issued[k2].form.code);
            c1 in j.minted && c2 in j.minted && c1 != c2 && j.minted[c1].sid != j.minted[c2].sid
  {
    RunKeepsInv(v, EMPTY, ops);
    var j := Run(v, EMPTY, ops).j;
    assert IssueOk(v, j.minted, j.redeemer, j.keyOf, k1, j.issued[k1]);
    assert IssueOk(v, j.minted, j.redeemer, j.keyOf, k2, j.issued[k2]);
    var (c1, c2) := (j.issued[k1].form.code, j.issued[k2].form.code);
    assert MintingOk(v, j.authorized, j.codeOf, j.rows, c1, j.minted[c1]);
    assert MintingOk(v, j.authorized, j.codeOf, j.rows, c2, j.minted[c2]);
  }

  /** The code that this step's guarded UPDATE redeems. */
  function Redeems(s: State, op: Op): Option<string> {
    if op.TokenMark? && op.r in s.pending && s.pending[op.r].Redeeming?
       && MarkCode(s.t, s.pending[op.r].form.code, op.now).Some?
    then Some(s.pending[op.r].form.code) else None
  }

  /** All redemptions of a run, in order. */
  function Redemptions(v: Server, s: State, ops: seq<Op>): seq<string>
    decreases |ops|
  {
    if ops == [] then [] else
    var rest := Redemptions(v, Step(v, s, ops[0]), ops[1..]);
    match Redeems(s, ops[0])
    case None => rest
    case Some(c) => [c] + rest
  }

  /** No two entries are equal, and none is among `past`. */
  predicate AllNew(cs: seq<string>, past: set<string>) {
    cs == [] || (cs[0] !in past && AllNew(cs[1..], past + {cs[0]}))
  }

  lemma {:induction false} FewerOld(cs: seq<string>, past: set<string>, earlier: set<string>)
    requires AllNew(cs, past) && earlier <= past
    ensures AllNew(cs, earlier)
  {
    if cs != [] { FewerOld(cs[1..], past + {cs[0]}, earlier + {cs[0]}); }
  }

  lemma {:induction false} NewOnesDiffer(cs: seq<string>, past: set<string>, k: nat)
    requires AllNew(cs, past) && k < |cs|
    ensures cs[k] !in past && forall i | 0 <= i < k :: cs[i] != cs[k]
  {
    if k > 0 {
      NewOnesDiffer(cs[1..], past + {cs[0]}, k - 1);
      assert cs[k] == cs[1..][k - 1];
      forall i | 0 <= i < k ensures cs[i] != cs[k] {
        if i > 0 { assert cs[i] == cs[1..][i - 1]; }
      }
    }
  }

  /** What a step redeems was not redeemed before, and is afterwards. */
  lemma {:induction false} RedeemedIsNew(v: Server, s: State, op: Op)
    requires Inv(v, s)
    ensures var s2 := Step(v, s, op); Inv(v, s2) && s.j.redeemer.Keys <= s2.j.redeemer.Keys
    ensures match Redeems(s, op) case None => true
            case Some(c) => c !in s.j.redeemer && c in Step(v, s, op).j.redeemer
  {
    StepKeepsInv(v, s, op);
  }

  lemma OneMoreNew(c: string, rest: seq<string>, past: set<string>, later: set<string>)
    requires AllNew(rest, later) && c !in past && past <= later && c in later
    ensures AllNew([c] + rest, past)
  {
    FewerOld(rest, later, past + {c});
    assert ([c] + rest)[1..] == rest;
  }

  lemma {:induction false} RedemptionsAreNew(v: Server, s: State, ops: seq<Op>)
    requires Inv(v, s)
    ensures AllNew(Redemptions(v, s, ops), s.j.redeemer.Keys)
    decreases |ops|
  {
    if ops != [] {
      var s2 := Step(v, s, ops[0]);
      var rest := Redemptions(v, s2, ops[1..]);
      RedeemedIsNew(v, s, ops[0]);
      RedemptionsAreNew(v, s2, ops[1..]);
      match Redeems(s, ops[0])
      case None => FewerOld(rest, s2.j.redeemer.Keys, s.j.redeemer.Keys);
      case Some(c) => OneMoreNew(c, rest, s.j.redeemer.Keys, s2.j.redeemer.Keys);
    }
  }

  /** However the SELECTs and UPDATEs of token requests interleave, a code is redeemed at most once. */
  lemma RedeemedOnce(v: Server, ops: seq<Op>)
    ensures var cs := Redemptions(v, EMPTY, ops); forall i, k | 0 <= i < k < |cs| :: cs[i] != cs[k]
  {
    RedemptionsAreNew(v, EMPTY, ops);
    var cs := Redemptions(v, EMPTY, ops);
    forall i, k | 0 <= i < k < |cs| ensures cs[i] != cs[k] {
      NewOnesDiffer(cs, EMPTY.j.redeemer.Keys, k);
    }
  }

  // Clients in service.

  predicate Used(clients: map<string, Client>, client: string) {
    client in clients && clients[client].lastUsedAt.Some?
  }

  /** Every client that a code was ever redeemed for is registered still, and marked as used. */
  ghost predicate InService(s: State) {
    forall c <- s.j.redeemer :: c in s.j.minted && Used(s.t.clients, s.j.minted[c].grant.client)
  }

  /** A used client stays, and stays used. */
  lemma {:induction false} UsedStays(v: Server, s: State, op: Op, client: string)
    requires Used(s.t.clients, client)
    ensures Used(Step(v, s, op).t.clients, client)
  {}

  lemma MarkingTables(t: Tables, j: Journal, c: string, now: int)
    requires CodesLinked(t.clients, t.users, t.codes) && CodesKnown(t.codes, j.minted, j.redeemer)
    requires MarkCode(t, c, now).Some?
    ensures c in j.minted && Used(MarkCode(t, c, now).value.clients, j.minted[c].grant.client)
  {
    assert CodeLinked(t.clients, t.users, t.codes[c]);
  }

  lemma RedeemingMarks(v: Server, s: State, op: Op)
    requires Redeems(s, op).Some?
    ensures Step(v, s, op).t == MarkCode(s.t, Redeems(s, op).value, op.now).value
  {}

  /** Marking a code's row also marks its client. */
  lemma {:induction false} MarkingUses(v: Server, s: State, op: Op)
    requires Inv(v, s) && Redeems(s, op).Some?
    ensures var c := Redeems(s, op).value; c in s.j.minted && Used(Step(v, s, op).t.clients, s.j.minted[c].grant.client)
  {
    MarkingTables(s.t, s.j, Redeems(s, op).value, op.now);
    RedeemingMarks(v, s, op);
  }

  /** Nothing else adds to the redeemed codes. */
  lemma OnlyMarksRedeem(v: Server, s: State, op: Op, c: string)
    requires c in Step(v, s, op).j.redeemer && c !in s.j.redeemer
    ensures Redeems(s, op) == Some(c)
  {}

  lemma StepKeepsService(v: Server, s: State, op: Op)
    requires Inv(v, s) && InService(s)
    ensures InService(Step(v, s, op))
  {
    var s2 := Step(v, s, op);
    RedeemedIsNew(v, s, op);
    StepKeepsInv(v, s, op);
    forall c | c in s2.j.redeemer ensures c in s2.j.minted && Used(s2.t.clients, s2.j.minted[c].grant.client) {
      if c in s.j.redeemer {
        UsedStays(v, s, op, s.j.minted[c].grant.client);
      } else {
        OnlyMarksRedeem(v, s, op, c);
        MarkingUses(v, s, op);
      }
    }
  }

  lemma {:induction false} RunKeepsService(v: Server, s: State, ops: seq<Op>)
    requires Inv(v, s) && InService(s)
    ensures InService(Run(v, s, ops))
    decreases |ops|
  {
    if ops != [] {
      StepKeepsInv(v, s, ops[0]);
      StepKeepsService(v, s, ops[0]);
      RunKeepsService(v, Step(v, s, ops[0]), ops[1..]);
    }
  }

  /** In every run, the clients of redeemed codes are in service, so none of them is ever listed as
      stale, let alone pruned. */
  lemma NoClientInServiceIsPruned(v: Server, ops: seq<Op>, c: string, cutoff: int)
    requires c in Run(v, EMPTY, ops).j.redeemer
    ensures var s := Run(v, EMPTY, ops);
            && c in s.j.minted && Used(s.t.clients, s.j.minted[c].grant.client)
            && s.j.minted[c].grant.client !in Stale(s.t, cutoff)
  {
    RunKeepsInv(v, EMPTY, []);
    RunKeepsService(v, EMPTY, ops);
  }

  lemma {:induction false} RedemptionsAreNoted(v: Server, s: State, ops: seq<Op>, c: string)
    requires Inv(v, s) && c in Redemptions(v, s, ops)
    ensures c in Run(v, s, ops).j.redeemer
    decreases |ops|
  {
    var s2 := Step(v, s, ops[0]);
    RedeemedIsNew(v, s, ops[0]);
    if Redeems(s, ops[0]) == Some(c) {
      RunKeepsInv(v, s2, ops[1..]);
    } else {
      RedemptionsAreNoted(v, s2, ops[1..], c);
    }
  }

  lemma UsedInBetween(v: Server, s: State, between: seq<Op>, c: string)
    requires Inv(v, s) && InService(s) && c in s.j.minted && c in Redemptions(v, s, between)
    ensures Used(Run(v, s, between).t.clients, s.j.minted[c].grant.client)
  {
    RunKeepsInv(v, s, between);
    RedemptionsAreNoted(v, s, between, c);
    RunKeepsService(v, s, between);
  }

  /** Once used, a client is in every later state. */
  lemma {:induction false} UsedStaysAll(v: Server, s: State, ops: seq<Op>, client: string)
    requires Used(s.t.clients, client)
    ensures Used(Run(v, s, ops).t.clients, client)
    decreases |ops|
  {
    if ops != [] {
      UsedStays(v, s, ops[0], client);
      UsedStaysAll(v, Step(v, s, ops[0]), ops[1..], client);
    }
  }

  /** A client the sweep has listed survives its delete when a code is redeemed in between. */
  lemma ListedButRedeemed(v: Server, ops: seq<Op>, between: seq<Op>, c: string, cutoff: int)
    requires var s := Run(v, EMPTY, ops); c in s.j.minted && s.j.minted[c].grant.client in Stale(s.t, cutoff)
    requires c in Redemptions(v, Run(v, EMPTY, ops), between)
    ensures var client := Run(v, EMPTY, ops).j.minted[c].grant.client;
            client in Run(v, EMPTY, ops + between + [Prune(cutoff)]).t.clients
  {
    var s := Run(v, EMPTY, ops);
    RunKeepsInv(v, EMPTY, ops);
    RunKeepsService(v, EMPTY, ops);
    UsedInBetween(v, s, between, c);
    RunJoins(v, EMPTY, ops, between);
    RunJoins(v, EMPTY, ops + between, [Prune(cutoff)]);
    UsedStaysAll(v, Run(v, s, between), [Prune(cutoff)], s.j.minted[c].grant.client);
  }

  // Who gets in.

  /** What this callback step learns of the invites, with the login it learns them for. */
  function Sight(s: State, op: Op): (string, Option<set<string>>)
    requires op.CallbackAdmit?
  {
    (op.login, if op.lookupFails then None else Some(s.t.invites))
  }

  /** All of them, in a run. */
  function Sights(v: Server, s: State, ops: seq<Op>): set<(string, Option<set<string>>)>
    decreases |ops|
  {
    if ops == [] then {} else
    Sights(v, Step(v, s, ops[0]), ops[1..]) + if ops[0].CallbackAdmit? then {Sight(s, ops[0])} else {}
  }

  predicate PendingSeen(p: Pending, past: set<(string, Option<set<string>>)>) {
    match p
    case Admitted(_, _, _, login, seen) => (login, seen) in past
    case SignedIn(_, _, _, _, login, seen) => (login, seen) in past
    case _ => true
  }

  /** Whatever a request or a code carries was seen in the past. */
  ghost predicate SeenWithin(s: State, past: set<(string, Option<set<string>>)>) {
    && (forall r <- s.pending :: PendingSeen(s.pending[r], past))
    && (forall c <- s.j.minted :: (s.j.minted[c].login, s.j.minted[c].seen) in past)
  }

  lemma SeenGrows(s: State, past: set<(string, Option<set<string>>)>, more: set<(string, Option<set<string>>)>)
    requires SeenWithin(s, past) && past <= more
    ensures SeenWithin(s, more)
  {}

  lemma CallbackKeepsSeen(v: Server, s: State, op: Op, past: set<(string, Option<set<string>>)>)
    requires SeenWithin(s, past) && OfCallback(op) && (op.CallbackAdmit? ==> Sight(s, op) in past)
    ensures SeenWithin(Step(v, s, op), past)
  {}

  lemma OthersKeepSeen(v: Server, s: State, op: Op, past: set<(string, Option<set<string>>)>)
    requires SeenWithin(s, past) && !OfCallback(op)
    ensures SeenWithin(Step(v, s, op), past)
  {}

  lemma {:induction false} RunKeepsSeen(v: Server, s: State, ops: seq<Op>, past: set<(string, Option<set<string>>)>)
    requires SeenWithin(s, past)
    ensures SeenWithin(Run(v, s, ops), past + Sights(v, s, ops))
    decreases |ops|
  {
    if ops != [] {
      var s2 := Step(v, s, ops[0]);
      var more := past + Sights(v, s, ops);
      SeenGrows(s, past, more);
      if OfCallback(ops[0]) {
        CallbackKeepsSeen(v, s, ops[0], more);
      } else {
        OthersKeepSeen(v, s, ops[0], more);
      }
      RunKeepsSeen(v, s2, ops[1..], more);
      assert more + Sights(v, s2, ops[1..]) == more;
    }
  }

  /** The step at n asks for this login, and finds these invites. */
  ghost predicate SeenAt(v: Server, s: State, ops: seq<Op>, n: nat, login: string, seen: Option<set<string>>)
    requires n < |ops|
  {
    ops[n].CallbackAdmit? && Sight(Run(v, s, ops[..n]), ops[n]) == (login, seen)
  }

  lemma {:induction false} SightHasPlace(v: Server, s: State, ops: seq<Op>, login: string, seen: Option<set<string>>)
      returns (n: nat)
    requires (login, seen) in Sights(v, s, ops)
    ensures n < |ops| && SeenAt(v, s, ops, n, login, seen)
    decreases |ops|
  {
    if ops[0].CallbackAdmit? && Sight(s, ops[0]) == (login, seen) {
      n := 0;
    } else {
      var k := SightHasPlace(v, Step(v, s, ops[0]), ops[1..], login, seen);
      n := k + 1;
      assert ops[..n][0] == ops[0] && ops[..n][1..] == ops[1..][..k];
    }
  }

  /** Every code was minted for a login that was let in at a callback of the run, on the invites as they
      were then. */
  lemma CodeWasLetIn(v: Server, ops: seq<Op>, c: string)
    requires c in Run(v, EMPTY, ops).j.minted
    ensures var m := Run(v, EMPTY, ops).j.minted[c];
            v.admits(m.seen, m.login) && exists n | 0 <= n < |ops| :: SeenAt(v, EMPTY, ops, n, m.login, m.seen)
  {
    var j := Run(v, EMPTY, ops).j;
    RunKeepsInv(v, EMPTY, ops);
    assert MintingOk(v, j.authorized, j.codeOf, j.rows, c, j.minted[c]);
    RunKeepsSeen(v, EMPTY, ops, {});
    assert {} + Sights(v, EMPTY, ops) == Sights(v, EMPTY, ops);
    var n := SightHasPlace(v, EMPTY, ops, j.minted[c].login, j.minted[c].seen);
  }

  /** Every key ever issued was for a redeemed code; the code was minted for one authorize request, for
      a client under a redirect URI it had registered; the token form repeated both and its verifier
      hashes to that request's challenge; and the login was let in at a callback of the run, on the
      invites as they were then. */
  lemma KeyTracesBack(v: Server, ops: seq<Op>, k: string)
    requires k in Run(v, EMPTY, ops).j.issued
    ensures var j := Run(v, EMPTY, ops).j; var i := j.issued[k];
      && i.form.code in j.redeemer && i.form.code in j.minted && var m := j.minted[i.form.code];
      && m.sid in j.authorized && var g := j.authorized[m.sid];
      && g.client in j.registered && g.redirectUri in j.registered[g.client]
      && i.form.client == g.client && i.form.redirectUri == g.redirectUri
      && g.challengeMethod == "S256" && v.hash(i.form.verifier) == g.challenge
      && v.admits(m.seen, m.login) && exists n | 0 <= n < |ops| :: SeenAt(v, EMPTY, ops, n, m.login, m.seen)
  {
    RunKeepsInv(v, EMPTY, ops);
    var j := Run(v, EMPTY, ops).j;
    assert IssueOk(v, j.minted, j.redeemer, j.keyOf, k, j.issued[k]);
    var c := j.issued[k].form.code;
    assert MintingOk(v, j.authorized, j.codeOf, j.rows, c, j.minted[c]);
    CodeWasLetIn(v, ops, c);
  }

  /** Somebody invited the login, and nobody has taken that back since. */
  predicate Stands(ops: seq<Op>, login: string) {
    if ops == [] then false else
    var last := ops[|ops| - 1];
    if last.Invite? && NormalizeLogin(last.login) == login != "" then true
    else if (last.Revoke? || last.DeleteUser?) && NormalizeLogin(last.login) == login then false
    else Stands(ops[..|ops| - 1], login)
  }

  lemma InvitesAfter(v: Server, s: State, op: Op, login: string)
    ensures login in Run(v, s, [op]).t.invites <==>
            if op.Invite? && NormalizeLogin(op.login) == login != "" then true
            else if (op.Revoke? || op.DeleteUser?) && NormalizeLogin(op.login) == login then false
            else login in s.t.invites
  {
    assert Run(v, s, [op]) == Run(v, Step(v, s, op), [op][1..]) == Step(v, s, op);
  }

  /** The invites are those that stand. */
  lemma {:induction false} InvitesStand(v: Server, ops: seq<Op>, login: string)
    ensures login in Run(v, EMPTY, ops).t.invites <==> Stands(ops, login)
  {
    if ops != [] {
      var n := |ops| - 1;
      InvitesStand(v, ops[..n], login);
      assert ops == ops[..n] + [ops[n]];
      RunJoins(v, EMPTY, ops[..n], [ops[n]]);
      InvitesAfter(v, Run(v, EMPTY, ops[..n]), ops[n], login);
    }
  }

  /** The step at n is a callback of this login, which the configuration names or whose invitation stands. */
  predicate WelcomeAt(cfg: Config, ops: seq<Op>, n: nat, login: string)
    requires n < |ops|
  {
    ops[n].CallbackAdmit? && ops[n].login == login &&
    (NormalizeLogin(login) in cfg.adminLogins + cfg.allowedLogins
     || (!ops[n].lookupFails && Stands(ops[..n], NormalizeLogin(login))))
  }

  /** On a closed deployment, a key belongs to a login that the configuration names, or whose invitation
      stood when its callback asked: revoked before that, it gets no key. */
  lemma OnlyTheInvitedGetKeys(cfg: Config, hash: string -> string, validUri: string -> bool, ops: seq<Op>, k: string)
    requires InviteOnly(cfg) && k in Run(Deployed(cfg, hash, validUri), EMPTY, ops).j.issued
    ensures var j := Run(Deployed(cfg, hash, validUri), EMPTY, ops).j;
            var c := j.issued[k].form.code;
            c in j.minted && exists n | 0 <= n < |ops| :: WelcomeAt(cfg, ops, n, j.minted[c].login)
  {
    var v := Deployed(cfg, hash, validUri);
    KeyTracesBack(v, ops, k);
    var j := Run(v, EMPTY, ops).j;
    var m := j.minted[j.issued[k].form.code];
    var n :| 0 <= n < |ops| && SeenAt(v, EMPTY, ops, n, m.login, m.seen);
    InvitesStand(v, ops[..n], NormalizeLogin(m.login));
    assert WelcomeAt(cfg, ops, n, m.login);
  }
}
