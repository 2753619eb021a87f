/** Revision 9 of the schema: when a client last completed an exchange, from the codes it redeemed. */
module Backfill {
  import opened Text
  import opened OAuth

  ghost predicate IsMax(s: set<int>, m: int) {
    m in s && forall x <- s :: x <= m
  }

  lemma {:induction false} HasMax(s: set<int>, x: int)
    requires x in s
    ensures exists m :: IsMax(s, m)
  {
    var rest := s - {x};
    if y :| y in s && y != x {
      HasMax(rest, y);
      var m :| IsMax(rest, m);
      forall z | z in s && z != x ensures z <= m { assert z in rest; }
      assert IsMax(s, if x > m then x else m);
    } else {
      assert IsMax(s, x);
    }
  }

  /** SQL's MAX: NULL over no rows. */
  ghost function Max(s: set<int>): (r: Option<int>)
    ensures r.Some? ==> IsMax(s, r.value)
  {
    if exists m :: IsMax(s, m) then
      var m :| IsMax(s, m);
      Some(m)
    else None
  }

  /** When the redeemed codes of a client expired. */
  function Redeemed(codes: map<string, Code>, client: string): set<int> {
    set c | c in codes && codes[c].used && codes[c].grant.client == client :: codes[c].expiresAt
  }

  ghost function Backfilled(t: Tables): Tables {
    t.(clients := map c | c in t.clients ::
         if t.clients[c].lastUsedAt.Some? then t.clients[c]
         else t.clients[c].(lastUsedAt := Max(Redeemed(t.codes, c))))
  }

  /** After the backfill a client counts as unused exactly when it did before and no code of it was
      ever redeemed; and a use it did not know of is dated by the latest of its codes. */
  lemma BackfillFindsEveryUse(t: Tables, client: string)
    requires client in t.clients
    ensures var before := t.clients[client].lastUsedAt; var after := Backfilled(t).clients[client].lastUsedAt;
            && (after.None? <==>
                  before.None? && forall c <- t.codes :: t.codes[c].used ==> t.codes[c].grant.client != client)
            && (before.Some? ==> after == before)
            && (before.None? && after.Some? ==>
                  && (exists c <- t.codes ::
                        t.codes[c].used && t.codes[c].grant.client == client && t.codes[c].expiresAt == after.value)
                  && forall c <- t.codes | t.codes[c].used && t.codes[c].grant.client == client ::
                       t.codes[c].expiresAt <= after.value)
            && Backfilled(t).clients[client] == t.clients[client].(lastUsedAt := after)
  {
    forall c | c in t.codes && t.codes[c].used && t.codes[c].grant.client == client
      ensures Max(Redeemed(t.codes, client)).Some? && t.codes[c].expiresAt in Redeemed(t.codes, client)
    {
      HasMax(Redeemed(t.codes, client), t.codes[c].expiresAt);
    }
  }

  /** Codes are redeemed before they expire. So no use is dated before any redemption, whenever that
      was. */
  lemma NoUseIsDatedTooEarly(t: Tables, client: string, redeemedAt: map<string, int>, c: string)
    requires client in t.clients && t.clients[client].lastUsedAt.None?
    requires forall c <- t.codes | t.codes[c].used :: c in redeemedAt && redeemedAt[c] <= t.codes[c].expiresAt
    requires c in t.codes && t.codes[c].used && t.codes[c].grant.client == client
    ensures var after := Backfilled(t).clients[client].lastUsedAt; after.Some? && redeemedAt[c] <= after.value
  {
    BackfillFindsEveryUse(t, client);
  }

  /** So the first prune after it spares every client with a redeemed code, whatever the cutoff. */
  lemma PruneAfterBackfill(t: Tables, c: string, cutoff: int)
    requires c in t.codes && t.codes[c].used && t.codes[c].grant.client in t.clients
    ensures var t2 := DropClients(Backfilled(t), Stale(Backfilled(t), cutoff));
            t.codes[c].grant.client in t2.clients && c in t2.codes && t2.codes[c] == t.codes[c]
  {
    BackfillFindsEveryUse(t, t.codes[c].grant.client);
  }
}
