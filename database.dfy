/**
 * The module-level `db` handle both servers share between their route handlers: the tables,
 * changed one statement at a time by `Run` (`db.run`), and the open transaction, if any
 * (`BEGIN TRANSACTION` / `COMMIT` / `ROLLBACK`).
 */
module Store {
  import opened Wrappers
  import opened Seqs
  import opened Schema

  /** The servers seed the 17 goals on first start; they get ids 1..17 in order. */
  function SeededSdgs(): (r: seq<Sdg>)
    ensures |r| == 17
    ensures forall i :: 0 <= i < 17 ==> r[i] == Sdg(i + 1, i + 1)
  {
    seq(17, i => Sdg(i + 1, i + 1))
  }

  function InitialTables(): Tables {
    Tables([], [], [], SeededSdgs(), [], [], [], [], 0, 0, 0, 0)
  }

  class Database {
    const config: Config
    /** Every table's rows and the four `AUTOINCREMENT` counters. */
    var tables: Tables
    /** The tables as they were at `BEGIN`, while a transaction is open. */
    var savepoint: Option<Tables>

    ghost predicate Valid()
      reads this
    {
      Consistent(tables, config) && (savepoint.Some? ==> Consistent(savepoint.value, config))
    }

    /** `CREATE TABLE IF NOT EXISTS …` on an empty file, then the SDG seed. */
    constructor (config: Config)
      ensures this.config == config
      ensures tables == InitialTables()
      ensures savepoint == None
      ensures Valid()
    {
      this.config := config;
      tables := InitialTables();
      savepoint := None;
      new;
      var s := SeededSdgs();
      forall i, j | 0 <= i < j < |s| ensures s[i].id != s[j].id {
      }
    }

    /**
     * Opening an existing file: every `CREATE TABLE IF NOT EXISTS` is a no-op, but the code
     * server's `DROP TABLE IF EXISTS feedback` first throws away every feedback row and, with the
     * table, its `AUTOINCREMENT` counter. The SDGs are only seeded into an empty table.
     */
    method Reopen()
      requires Valid() && savepoint.None?
      modifies this
      ensures Valid() && savepoint == None
      ensures tables == if config.variant == CodeServer then old(tables).(feedback := [], feedbackSeq := 0) else old(tables)
    {
      if config.variant == CodeServer {
        tables := tables.(feedback := [], feedbackSeq := 0);
      }
    }

    /** `db.run(sql, params)`: a failing statement leaves every table as it was. */
    method Run(stmt: Statement) returns (r: ExecResult)
      requires Valid()
      modifies this
      ensures Valid()
      ensures r == Exec(old(tables), config, stmt)
      ensures tables == (if r.Done? then r.tables else old(tables))
      ensures savepoint == old(savepoint)
    {
      r := Exec(tables, config, stmt);
      ExecPreservesConsistent(tables, config, stmt);
      if r.Done? {
        tables := r.tables;
      }
    }

    /** `BEGIN TRANSACTION`; SQLite refuses to nest transactions. */
    method Begin() returns (ok: bool)
      requires Valid()
      modifies this
      ensures Valid()
      ensures ok <==> old(savepoint).None?
      ensures tables == old(tables)
      ensures savepoint == if ok then Some(old(tables)) else old(savepoint)
    {
      ok := savepoint.None?;
      if ok {
        savepoint := Some(tables);
      }
    }

    /** `COMMIT`: keeps the current tables and closes the transaction. */
    method Commit() returns (ok: bool)
      requires Valid()
      modifies this
      ensures Valid()
      ensures ok <==> old(savepoint).Some?
      ensures tables == old(tables)
      ensures savepoint == None
    {
      ok := savepoint.Some?;
      savepoint := None;
    }

    /** `ROLLBACK`: every table, counters included, returns to its state at `BEGIN`. */
    method Rollback() returns (ok: bool)
      requires Valid()
      modifies this
      ensures Valid()
      ensures ok <==> old(savepoint).Some?
      ensures tables == if ok then old(savepoint).value else old(tables)
      ensures savepoint == None
    {
      ok := savepoint.Some?;
      if ok {
        tables := savepoint.value;
      }
      savepoint := None;
    }
  }
}
