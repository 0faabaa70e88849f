/**
 * The backend's writer of the durable aggregate store
 * (typetrace/backend/database_manager.hpp): opening the database under a
 * directory, and writing a buffer of keystroke records as one transaction
 * that runs the UPSERT once per record.
 */
module DbManager {
  import opened Optional
  import opened Errors
  import opened Constants
  import opened Types
  import opened Paths
  import opened Sql

  /** The key a record is stored under: its code as bound by `static_cast<int>`, and its date. */
  predicate HasKey(e: KeystrokeEvent, code: int, date: string) {
    ToInt32(e.keyCode) == code && e.date == date
  }

  /** The UPSERT run once per record, in buffer order. */
  function UpsertAll(t: Table, buffer: seq<KeystrokeEvent>): Table {
    if buffer == [] then t
    else
      var e := buffer[|buffer| - 1];
      Upsert(UpsertAll(t, buffer[..|buffer| - 1]), ToInt32(e.keyCode), e.keyName, e.date)
  }

  /** How many records of the buffer carry the key (code, date). */
  function Occurrences(buffer: seq<KeystrokeEvent>, code: int, date: string): nat {
    if buffer == [] then 0
    else Occurrences(buffer[..|buffer| - 1], code, date) + (if HasKey(buffer[|buffer| - 1], code, date) then 1 else 0)
  }

  /** The key name of the last record of the buffer that carries the key (code, date). */
  function LastName(buffer: seq<KeystrokeEvent>, code: int, date: string): Option<string> {
    if buffer == [] then None
    else if HasKey(buffer[|buffer| - 1], code, date) then Some(buffer[|buffer| - 1].keyName)
    else LastName(buffer[..|buffer| - 1], code, date)
  }

  lemma {:induction false} LastNameExists(buffer: seq<KeystrokeEvent>, code: int, date: string)
    ensures LastName(buffer, code, date).Some? <==> Occurrences(buffer, code, date) > 0
  {
    if buffer != [] {
      LastNameExists(buffer[..|buffer| - 1], code, date);
    }
  }

  /**
   * What a committed write does to each key: its count grows by the number of
   * records carrying the key, its name becomes that of the last such record,
   * and a key no record carries keeps its row (or its absence) unchanged.
   */
  lemma {:induction false} UpsertAllMeaning(t: Table, buffer: seq<KeystrokeEvent>, code: int, date: string)
    ensures CountAt(UpsertAll(t, buffer), code, date) == CountAt(t, code, date) + Occurrences(buffer, code, date)
    ensures Occurrences(buffer, code, date) == 0 ==> Lookup(UpsertAll(t, buffer), code, date) == Lookup(t, code, date)
    ensures Occurrences(buffer, code, date) > 0 ==>
      LastName(buffer, code, date).Some? &&
      Lookup(UpsertAll(t, buffer), code, date)
        == Some(Row(code, LastName(buffer, code, date).value, date, CountAt(t, code, date) + Occurrences(buffer, code, date)))
  {
    if buffer != [] {
      var init := buffer[..|buffer| - 1];
      var e := buffer[|buffer| - 1];
      var before := UpsertAll(t, init);
      UpsertAllMeaning(t, init, code, date);
      LastNameExists(init, code, date);
      UpsertMeaning(before, ToInt32(e.keyCode), e.keyName, e.date);
    }
  }

  /** A committed write adds exactly the buffer's length to the table's total count. */
  lemma {:induction false} UpsertAllAddsLength(t: Table, buffer: seq<KeystrokeEvent>)
    ensures TotalCount(UpsertAll(t, buffer)) == TotalCount(t) + |buffer|
  {
    if buffer != [] {
      var e := buffer[|buffer| - 1];
      UpsertAllAddsLength(t, buffer[..|buffer| - 1]);
      UpsertAddsOne(UpsertAll(t, buffer[..|buffer| - 1]), ToInt32(e.keyCode), e.keyName, e.date);
    }
  }

  /** Writing a buffer in two flushes leaves the same table as writing it in one. */
  lemma {:induction false} UpsertAllSplit(t: Table, a: seq<KeystrokeEvent>, b: seq<KeystrokeEvent>)
    ensures UpsertAll(UpsertAll(t, a), b) == UpsertAll(t, a + b)
  {
    if b == [] {
      assert a + b == a;
    } else {
      UpsertAllSplit(t, a, b[..|b| - 1]);
      assert (a + b)[..|a + b| - 1] == a + b[..|b| - 1];
    }
  }

  /**
   * n presses of one key on one date, written into an empty table, leave a
   * single row carrying that key, its name and count n.
   */
  lemma {:induction false} RepeatedKeyOneRow(e: KeystrokeEvent, n: nat)
    requires n > 0
    ensures UpsertAll([], seq(n, _ => e)) == [Row(ToInt32(e.keyCode), e.keyName, e.date, n)]
  {
    var b := seq(n, _ => e);
    if n == 1 {
      assert b[..0] == [];
    } else {
      RepeatedKeyOneRow(e, n - 1);
      assert b[..n - 1] == seq(n - 1, _ => e);
    }
  }

  /** Where SQLite raises during write_to_database, if it does. */
  datatype WriteFault =
    | NoWriteFault
      /**
       * The statement numbered `step` raises: for step < |buffer| the upsert
       * of that record (a failing BEGIN or prepare reads as step 0), otherwise
       * the COMMIT.
       */
    | RaisesAt(step: nat, what: string)

  /** The table after write_to_database: all upserts if the transaction commits, none otherwise. */
  function Persisted(t: Table, buffer: seq<KeystrokeEvent>, fault: WriteFault): (r: Table)
    ensures buffer == [] ==> r == t
    ensures fault.RaisesAt? ==> r == t
    ensures TotalCount(r) == TotalCount(t) + (if fault.NoWriteFault? then |buffer| else 0)
  {
    UpsertAllAddsLength(t, buffer);
    if fault.NoWriteFault? then UpsertAll(t, buffer) else t
  }

  /** Where SQLite or the filesystem raises during DatabaseManager::create, if anywhere. */
  datatype CreateFault =
    | NoCreateFault
    | FilesystemFails(what: string)   // checking or creating the directory
    | OpenFails(what: string)         // opening the file or running the pragmas
    | CreateTablesFails(what: string) // CREATE TABLE IF NOT EXISTS

  /** The file the manager opens: `db_dir / DB_FILE_NAME`. */
  function DbFile(dbDir: Path): (p: Path)
    ensures p.parts == dbDir.parts + [DB_FILE_NAME]
  {
    Join(dbDir, DB_FILE_NAME)
  }

  /**
   * The error DatabaseManager::create returns: filesystem failures are
   * SYSTEM errors, SQLite failures DATABASE errors.
   */
  function CreateError(dbDir: Path, fault: CreateFault): (r: Option<Error>)
    ensures fault.NoCreateFault? <==> r.None?
    ensures fault.FilesystemFails? ==> r.Some? && r.value.code == System
    ensures fault.OpenFails? || fault.CreateTablesFails? ==> r.Some? && r.value.code == Database
    ensures fault.OpenFails? ==> r.Some? && r.value.message == "Failed to open database '" + PathString(DbFile(dbDir)) + "': " + fault.what
  {
    match fault
    case NoCreateFault => None
    case FilesystemFails(what) => Some(MakeSystemError("Filesystem error: " + what))
    case OpenFails(what) => Some(MakeDatabaseError("Failed to open database '" + PathString(DbFile(dbDir)) + "': " + what))
    case CreateTablesFails(what) => Some(MakeDatabaseError("Failed to create tables: " + what))
  }

  /** The message of the error write_to_database returns. */
  function WriteErrorMessage(what: string): string {
    "Failed to write to database: " + what
  }

  class DatabaseManager {
    /** `db_file_`. */
    const dbFile: Path
    /** The contents of the keystrokes table in the open database. */
    var table: Table

    constructor Open(file: Path, stored: Table)
      ensures dbFile == file && table == stored
    {
      dbFile := file;
      table := stored;
    }

    /**
     * DatabaseManager::create: open (or create) the database file under
     * `dbDir`, whose keystrokes table currently holds `stored` (empty for a
     * new file).
     */
    static method Create(dbDir: Path, stored: Table, fault: CreateFault) returns (r: Result<DatabaseManager>)
      ensures r.Err? <==> CreateError(dbDir, fault).Some?
      ensures r.Err? ==> r.error == CreateError(dbDir, fault).value
      ensures r.Ok? ==> fresh(r.value) && r.value.dbFile == DbFile(dbDir) && r.value.table == stored
    {
      var err := CreateError(dbDir, fault);
      if err.Some? {
        return Err(err.value);
      }
      var manager := new DatabaseManager.Open(DbFile(dbDir), stored);
      return Ok(manager);
    }

    /**
     * write_to_database: one transaction running the UPSERT once per record,
     * in order. An exception anywhere rolls the transaction back and is
     * reported as a DATABASE error.
     */
    method WriteToDatabase(buffer: seq<KeystrokeEvent>, fault: WriteFault) returns (r: Outcome)
      modifies this
      ensures r == if buffer == [] || fault.NoWriteFault? then Pass
                   else Fail(MakeDatabaseError(WriteErrorMessage(fault.what)))
      ensures table == Persisted(old(table), buffer, fault)
    {
      if buffer == [] {
        return Pass;
      }
      var working := table;
      var i := 0;
      while i < |buffer|
        invariant 0 <= i <= |buffer|
        invariant working == UpsertAll(table, buffer[..i])
        invariant fault.RaisesAt? ==> i <= fault.step
        invariant table == old(table)
      {
        if fault.RaisesAt? && fault.step == i {
          return Fail(MakeDatabaseError(WriteErrorMessage(fault.what)));
        }
        var e := buffer[i];
        assert buffer[..i + 1][..i] == buffer[..i];
        working := Upsert(working, ToInt32(e.keyCode), e.keyName, e.date);
        i := i + 1;
      }
      if fault.RaisesAt? {
        return Fail(MakeDatabaseError(WriteErrorMessage(fault.what)));
      }
      assert buffer[..i] == buffer;
      table := working;
      return Pass;
    }
  }
}
