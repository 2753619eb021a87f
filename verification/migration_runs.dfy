/** Crashes and upgrades in any order leave a prefix of whole revisions, each run once. */
module MigrationRuns {
  import opened Migrations

  /** The one list that every binary's list is a prefix of. */
  ghost predicate WellOrdered(master: seq<Migration>) {
    && |master| > 0 && master[0].revision == 1
    && (forall i | 0 < i < |master| :: master[i - 1].revision < master[i].revision)
  }

  /** The rows after k revisions: a legacy database has the baseline row for the first. */
  function Rows(master: seq<Migration>, legacy: bool, k: nat): seq<Row>
    requires k <= |master|
  {
    if k == 0 then [] else
    Rows(master, legacy, k - 1)
      + [if legacy && k == 1 then BASELINE else Row(master[k - 1].revision, master[k - 1].name)]
  }

  /** The statements of the first k revisions; a legacy database never runs the first one's. */
  function Statements(master: seq<Migration>, legacy: bool, k: nat): seq<string>
    requires k <= |master|
  {
    if k == 0 || (legacy && k == 1) then [] else Statements(master, legacy, k - 1) + master[k - 1].stmts
  }

  function Revision(master: seq<Migration>, k: nat): int
    requires k <= |master|
  {
    if k == 0 then 0 else master[k - 1].revision
  }

  /** The database holds the first k revisions, whole and once each, and nothing else. */
  ghost predicate At(master: seq<Migration>, db: Database, k: nat) {
    k <= |master| && db.rows == Rows(master, db.legacy, k) && db.log == Statements(master, db.legacy, k)
  }

  lemma {:induction false} Increasing(master: seq<Migration>, i: nat, k: nat)
    requires WellOrdered(master) && i <= k < |master|
    ensures master[i].revision <= master[k].revision && (i < k ==> master[i].revision < master[k].revision)
    decreases k
  {
    if i < k { Increasing(master, i, k - 1); }
  }

  lemma {:induction false} RowsAre(master: seq<Migration>, legacy: bool, k: nat)
    requires WellOrdered(master) && k <= |master|
    ensures |Rows(master, legacy, k)| == k
    ensures forall i | 0 <= i < k :: Rows(master, legacy, k)[i].revision == master[i].revision
    ensures SchemaRevision(Rows(master, legacy, k)) == Revision(master, k)
  {
    if k > 0 {
      RowsAre(master, legacy, k - 1);
      var rows := Rows(master, legacy, k);
      assert rows[..k - 1] == Rows(master, legacy, k - 1);
    }
  }

  lemma NotRecorded(master: seq<Migration>, legacy: bool, k: nat)
    requires WellOrdered(master) && k < |master|
    ensures !Recorded(Rows(master, legacy, k), master[k].revision)
  {
    RowsAre(master, legacy, k);
    forall i | 0 <= i < k ensures Rows(master, legacy, k)[i].revision != master[k].revision {
      Increasing(master, i, k);
    }
  }

  /** How many calls it takes to apply the revisions from i up to len. */
  function Calls(master: seq<Migration>, i: nat, len: nat): nat
    requires len <= |master|
    decreases len - i
  {
    if i >= len then 0 else |master[i].stmts| + 3 + Calls(master, i + 1, len)
  }

  lemma StepUp(master: seq<Migration>, db: Database, k: nat, n: nat)
    requires k < |master| && At(master, db, k) && ApplyTx(db, master[k], n).1.Some? && (db.legacy ==> k > 0)
    ensures At(master, ApplyTx(db, master[k], n).0, k + 1)
  {}

  /** From the revision after the k0-th on. */
  lemma {:induction false} ApplyFromAt(master: seq<Migration>, len: nat, db: Database, i: nat, k0: nat, k: nat, n: nat)
      returns (k2: nat)
    requires WellOrdered(master) && i <= len <= |master| && k0 <= len && At(master, db, k)
    requires k == (if i < k0 then k0 else i) && (db.legacy ==> k0 > 0)
    ensures var (db2, out) := ApplyFrom(db, master[..len], i, Revision(master, k0), n);
            && k <= k2 <= len && At(master, db2, k2) && db2.legacy == db.legacy
            && out == (if k2 == len then Opened else Failed)
            && (n >= Calls(master, i, len) ==> k2 == len)
    decreases len - i
  {
    k2 := k;
    if i < len {
      assert master[..len][i] == master[i];
      if i < k0 {
        Increasing(master, i, k0 - 1);
        k2 := ApplyFromAt(master, len, db, i + 1, k0, k, n);
      } else {
        if k0 > 0 { Increasing(master, k0 - 1, i); } else { Increasing(master, 0, i); }
        NotRecorded(master, db.legacy, i);
        match ApplyTx(db, master[i], n)
        case (db2, None) =>
        case (db2, Some(left)) =>
          StepUp(master, db, i, n);
          k2 := ApplyFromAt(master, len, db2, i + 1, k0, i + 1, left);
      }
    }
  }

  /** An Upgrade of a database that holds k revisions. */
  lemma UpgradeAt(master: seq<Migration>, len: nat, db: Database, k: nat, n: nat) returns (k2: nat)
    requires WellOrdered(master) && 0 < len <= |master| && At(master, db, k) && (db.legacy ==> k > 0)
    ensures var (db2, out) := Upgrade(db, master[..len], Revision(master, k), n);
            && k <= k2 && At(master, db2, k2) && db2.legacy == db.legacy
            && (k <= len ==> k2 <= len && out == if k2 == len then Opened else Failed)
            && (k <= len && n >= Calls(master, 0, len) ==> k2 == len)
            && (k > len ==> k2 == k && db2 == db && out == TooNew)
  {
    k2 := k;
    assert LatestRevision(master[..len]) == master[len - 1].revision;
    if k > len {
      Increasing(master, len - 1, k - 1);
    } else {
      if k > 0 { Increasing(master, k - 1, len - 1); } else { Increasing(master, 0, len - 1); }
      k2 := ApplyFromAt(master, len, db, 0, k, k, n);
    }
  }

  lemma BaselineAt(master: seq<Migration>, db: Database)
    requires WellOrdered(master) && At(master, db, 0) && db.legacy
    ensures At(master, db.(rows := db.rows + [BASELINE]), 1)
  {}

  /** One Open, dying after n calls or not: the database moves up by whole revisions, never past the
      binary's last one. It succeeds only there, and always when it lives long enough and the database
      is not ahead. A database that is ahead is refused. */
  lemma OpenAt(creates: string -> bool, master: seq<Migration>, len: nat, db: Database, k: nat, n: nat)
      returns (k2: nat)
    requires WellOrdered(master) && 0 < len <= |master| && At(master, db, k)
    ensures var (db2, out) := Open(creates, db, master[..len], n);
            && k <= k2 && At(master, db2, k2) && db2.legacy == db.legacy
            && (k <= len ==> k2 <= len && out != TooNew && (out == Opened ==> k2 == len))
            && (k <= len && n >= 4 + Calls(master, 0, len) ==> out == Opened)
            && (k > len ==> k2 == k && db2 == db && out == if n < 2 then Failed else TooNew)
  {
    k2 := k;
    RowsAre(master, db.legacy, k);
    if k > 0 {
      Increasing(master, 0, k - 1);
      if n >= 2 { k2 := UpgradeAt(master, len, db, k, n - 2); }
    } else {
      assert HasUsers(creates, db) == db.legacy && !Recorded(db.rows, 1);
      if n >= 4 && db.legacy {
        BaselineAt(master, db);
        k2 := UpgradeAt(master, len, db.(rows := db.rows + [BASELINE]), 1, n - 4);
      } else if n >= 3 && !db.legacy {
        k2 := UpgradeAt(master, len, db, 0, n - 3);
      }
    }
  }

  /** An Open by a binary that knows `len` revisions, of which the first n calls succeed. */
  datatype Start = Start(len: nat, n: nat)

  predicate Known(master: seq<Migration>, starts: seq<Start>) {
    forall i | 0 <= i < |starts| :: 0 < starts[i].len <= |master|
  }

  function Run(creates: string -> bool, master: seq<Migration>, db: Database, starts: seq<Start>): Database
    requires Known(master, starts)
    decreases |starts|
  {
    if starts == [] then db
    else Run(creates, master, Open(creates, db, master[..starts[0].len], starts[0].n).0, starts[1..])
  }

  /** Whatever binaries opened the database, and wherever they died, it holds a prefix of whole
      revisions, no longer than the newest of them knows. */
  lemma {:induction false} RunAt(creates: string -> bool, master: seq<Migration>, db: Database, k: nat,
                                 starts: seq<Start>, newest: nat) returns (k2: nat)
    requires WellOrdered(master) && At(master, db, k) && Known(master, starts) && k <= newest
    requires forall i | 0 <= i < |starts| :: starts[i].len <= newest
    ensures var db2 := Run(creates, master, db, starts);
            k <= k2 <= newest && At(master, db2, k2) && db2.legacy == db.legacy
    decreases |starts|
  {
    k2 := k;
    if starts != [] {
      k2 := OpenAt(creates, master, starts[0].len, db, k, starts[0].n);
      k2 := RunAt(creates, master, Open(creates, db, master[..starts[0].len], starts[0].n).0, k2, starts[1..], newest);
    }
  }

  /** From a new or a legacy database. */
  lemma WholeRevisionsOnly(creates: string -> bool, master: seq<Migration>, legacy: bool, starts: seq<Start>)
    requires WellOrdered(master) && Known(master, starts)
    ensures exists k :: At(master, Run(creates, master, Database([], [], legacy), starts), k)
  {
    var k := RunAt(creates, master, Database([], [], legacy), 0, starts, |master|);
  }

  /** Crashes leave no trace: an Open that lives long enough ends where it would have ended on the
      database as it first was, statement for statement. */
  lemma {:induction false} CrashesLeaveNoTrace(creates: string -> bool, master: seq<Migration>, legacy: bool,
                                               starts: seq<Start>, len: nat, n: nat)
    requires WellOrdered(master) && Known(master, starts) && 0 < len <= |master| && n >= 4 + Calls(master, 0, len)
    requires forall i | 0 <= i < |starts| :: starts[i].len <= len
    ensures var db := Database([], [], legacy);
            && Open(creates, Run(creates, master, db, starts), master[..len], n) == Open(creates, db, master[..len], n)
            && Open(creates, db, master[..len], n).1 == Opened
  {
    var db := Database([], [], legacy);
    var k := RunAt(creates, master, db, 0, starts, len);
    var k2 := OpenAt(creates, master, len, Run(creates, master, db, starts), k, n);
    var k3 := OpenAt(creates, master, len, db, 0, n);
  }
}
