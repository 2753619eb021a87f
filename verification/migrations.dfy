/** Schema migrations: what a database holds after any number of Opens that may die anywhere. */
module Migrations {
  import opened Text

  datatype Migration = Migration(revision: int, name: string, stmts: seq<string>)

  /** A row of schema_migrations. */
  datatype Row = Row(revision: int, name: string)

  /** The committed statements in order, the recorded revisions, and whether the tables predate
      versioning. */
  datatype Database = Database(log: seq<string>, rows: seq<Row>, legacy: bool)

  datatype Outcome = Opened | TooNew | Failed

  const BASELINE := Row(1, "initial schema (baselined)")

  /** SELECT MAX(revision), and 0 without rows. */
  function SchemaRevision(rows: seq<Row>): int {
    if rows == [] then 0 else
    var last := rows[|rows| - 1].revision;
    if |rows| == 1 then last else
    var before := SchemaRevision(rows[..|rows| - 1]);
    if before > last then before else last
  }

  function LatestRevision(list: seq<Migration>): int {
    if list == [] then 0 else list[|list| - 1].revision
  }

  /** Whether the table `users` exists; `creates` says which statements make it. */
  predicate HasUsers(creates: string -> bool, db: Database) {
    db.legacy || exists i | 0 <= i < |db.log| :: creates(db.log[i])
  }

  predicate Recorded(rows: seq<Row>, revision: int) {
    exists i | 0 <= i < |rows| :: rows[i].revision == revision
  }

  // What one Open does when the first n of its database calls succeed and the next one does not.

  /** applyMigration: begin, each statement, the bookkeeping row, commit. Some: calls left. */
  function ApplyTx(db: Database, m: Migration, n: nat): (Database, Option<nat>) {
    if n < |m.stmts| + 3 || Recorded(db.rows, m.revision) then (db, None)
    else (Database(db.log + m.stmts, db.rows + [Row(m.revision, m.name)], db.legacy), Some(n - |m.stmts| - 3))
  }

  /** The revisions from index i on that are newer than `current`. */
  function ApplyFrom(db: Database, list: seq<Migration>, i: nat, current: int, n: nat): (Database, Outcome)
    requires i <= |list|
    decreases |list| - i
  {
    if i == |list| then (db, Opened)
    else if list[i].revision <= current then ApplyFrom(db, list, i + 1, current, n)
    else
      match ApplyTx(db, list[i], n)
      case (db2, None) => (db2, Failed)
      case (db2, Some(left)) => ApplyFrom(db2, list, i + 1, current, left)
  }

  function Upgrade(db: Database, list: seq<Migration>, current: int, n: nat): (Database, Outcome) {
    if current > LatestRevision(list) then (db, TooNew) else ApplyFrom(db, list, 0, current, n)
  }

  /** runMigrations. */
  function Open(creates: string -> bool, db: Database, list: seq<Migration>, n: nat): (Database, Outcome) {
    if n < 2 then (db, Failed) else
    var current := SchemaRevision(db.rows);
    if current != 0 then Upgrade(db, list, current, n - 2)
    else if n < 3 then (db, Failed)
    else if !HasUsers(creates, db) then Upgrade(db, list, 0, n - 3)
    else if n < 4 || Recorded(db.rows, 1) then (db, Failed)
    else Upgrade(db.(rows := db.rows + [BASELINE]), list, 1, n - 4)
  }

  /** A connection. The first `left` calls on it succeed. */
  class Store {
    const creates: string -> bool
    const legacy: bool
    var log: seq<string>
    var rows: seq<Row>
    var left: nat

    constructor (creates: string -> bool, db: Database, calls: nat)
      ensures View() == db && left == calls && this.creates == creates
    {
      this.creates, legacy, log, rows, left := creates, db.legacy, db.log, db.rows, calls;
    }

    ghost function View(): Database
      reads this
    {
      Database(log, rows, legacy)
    }

    /** One call to the database. */
    method Call() returns (ok: bool)
      modifies this`left
      ensures ok == (old(left) > 0) && left == if ok then old(left) - 1 else 0
    {
      ok := left > 0;
      if ok {
        left := left - 1;
      }
    }

    /** The statements go into a transaction of their own until the commit. */
    method ApplyMigration(m: Migration) returns (ok: bool)
      modifies this
      ensures var (db2, rest) := ApplyTx(old(View()), m, old(left));
              View() == db2 && ok == rest.Some? && (ok ==> left == rest.value)
    {
      ok := Call();
      if !ok {
        return;
      }
      var tx := log;
      for i := 0 to |m.stmts|
        invariant old(left) >= i + 1 && left == old(left) - i - 1
        invariant View() == old(View()) && tx == log + m.stmts[..i]
      {
        ok := Call();
        if !ok {
          return;
        }
        tx := tx + [m.stmts[i]];
      }
      assert m.stmts[..|m.stmts|] == m.stmts;
      ok := Call();
      if !ok || Recorded(rows, m.revision) {
        return false;
      }
      ok := Call();
      if !ok {
        return;
      }
      log, rows := tx, rows + [Row(m.revision, m.name)];
    }

    method RunMigrations(list: seq<Migration>) returns (out: Outcome)
      modifies this
      ensures (View(), out) == Open(creates, old(View()), list, old(left))
    {
      var ok := Call();
      if ok {
        ok := Call();
      }
      if !ok {
        return Failed;
      }
      var current := SchemaRevision(rows);
      if current == 0 {
        ok := Call();
        if !ok {
          return Failed;
        }
        if legacy || exists i | 0 <= i < |log| :: creates(log[i]) {
          assert HasUsers(creates, View());
          ok := Call();
          if !ok || Recorded(rows, 1) {
            return Failed;
          }
          rows := rows + [BASELINE];
          current := 1;
        }
      }
      ghost var (db, n) := (View(), left);
      assert Open(creates, old(View()), list, old(left)) == Upgrade(db, list, current, n);
      if current > LatestRevision(list) {
        return TooNew;
      }
      for i := 0 to |list|
        invariant ApplyFrom(db, list, 0, current, n) == ApplyFrom(View(), list, i, current, left)
      {
        if list[i].revision > current {
          ok := ApplyMigration(list[i]);
          if !ok {
            return Failed;
          }
        }
      }
      out := Opened;
    }
  }
}
