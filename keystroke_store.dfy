/**
 * The frontend's read-only view of the database
 * (typetrace/frontend/models/keystroke_store.hpp): aggregate queries over
 * the keystrokes table, each read row by row into a vector, with fixed
 * fallbacks when SQLite raises: the rows read so far, 0 for the total count
 * and 1 for the highest count.
 *
 * A statement that names a column the table lacks fails to prepare. The
 * store's queries call the code column `key_code`; the table the backend
 * creates calls it `scan_code`. The model therefore keeps the table's column
 * names, and the store the name its queries use.
 */
module KeystrokeStoreModel {
  import opened Optional
  import opened Types
  import opened Relational
  import opened Sql

  /** The keystrokes table as the frontend opens it: its column names and its rows. */
  datatype Database = Database(columns: set<string>, rows: Table)

  /** The table as the backend creates it (CREATE_KEYSTROKES_TABLE_SQL). */
  function BackendDatabase(rows: Table): (db: Database)
    ensures db.columns == KEYSTROKES_COLUMNS && db.rows == rows
  {
    Database(KEYSTROKES_COLUMNS, rows)
  }

  /** The name the store's queries give the key code column. */
  const WRITTEN_CODE_COLUMN: string := "key_code"

  /** The name the backend's schema gives it. */
  const SCHEMA_CODE_COLUMN: string := "scan_code"

  /** A statement naming the columns `needed` prepares only if the table has them all. */
  predicate Resolves(db: Database, needed: set<string>) {
    needed <= db.columns
  }

  /** A `GROUP BY key_code, key_name` key. */
  datatype KeyId = KeyId(code: int, name: string)

  function RowKeyId(r: Row): KeyId { KeyId(r.scanCode, r.keyName) }

  /** A row read without grouping: its key and its own count. */
  function RowEntry(r: Row): Group<KeyId> { Group(RowKeyId(r), r.count) }

  /** `WHERE date = d`. */
  function OnDate(d: string): Row -> bool {
    (r: Row) => r.date == d
  }

  /** One entry per row, in order. */
  function Entries(rows: seq<Row>): (r: seq<Group<KeyId>>)
    ensures |r| == |rows|
    ensures forall i :: 0 <= i < |rows| ==> r[i] == RowEntry(rows[i])
  {
    seq(|rows|, i requires 0 <= i < |rows| => RowEntry(rows[i]))
  }

  /** `SELECT code, key_name, SUM(count) AS total_count GROUP BY code, key_name ORDER BY total_count DESC`. */
  function KeyTotals(rows: seq<Row>): seq<Group<KeyId>> {
    SortBy(GroupBy(rows, RowKeyId, RowCount), TotalDescending)
  }

  /** The query of get_all_keystrokes, naming the code column `col`; None when it fails to prepare. */
  function AllKeystrokesQuery(db: Database, col: string): Option<seq<Group<KeyId>>> {
    if Resolves(db, {col, "key_name", "count"}) then Some(KeyTotals(db.rows)) else None
  }

  /**
   * The query of get_top_keystrokes: with a date, that date's rows by
   * descending count; without one, the grouped sums by descending total;
   * LIMIT in both cases.
   */
  function TopKeystrokesQuery(db: Database, col: string, limit: int, date: Option<string>): Option<seq<Group<KeyId>>> {
    match date
    case Some(d) =>
      if Resolves(db, {col, "key_name", "count", "date"})
      then Some(Limit(SortBy(Entries(Where(db.rows, OnDate(d))), TotalDescending), limit))
      else None
    case None =>
      if Resolves(db, {col, "key_name", "count"}) then Some(Limit(KeyTotals(db.rows), limit)) else None
  }

  /** The number of days get_daily_counts reports. */
  const DAILY_COUNT_DAYS: int := 7

  /** `SELECT date, SUM(count) GROUP BY date ORDER BY date DESC LIMIT 7`. */
  function DailyCountsQuery(db: Database): Option<seq<Group<string>>> {
    if Resolves(db, {"date", "count"})
    then Some(Limit(SortBy(GroupBy(db.rows, RowDate, RowCount), DateDescending), DAILY_COUNT_DAYS))
    else None
  }

  /** `SELECT SUM(count) [WHERE date = ?]`; SUM over no rows is NULL, which getInt reads as 0. */
  function TotalCountQuery(db: Database, date: Option<string>): Option<int> {
    match date
    case None => if Resolves(db, {"count"}) then Some(Sum(db.rows, RowCount)) else None
    case Some(d) => if Resolves(db, {"count", "date"}) then Some(Sum(Where(db.rows, OnDate(d)), RowCount)) else None
  }

  /** MAX(total) over the groups; MAX over no rows is NULL, which getInt reads as 0. */
  function MaxTotal<K>(gs: seq<Group<K>>): (m: int)
    ensures gs == [] ==> m == 0
    ensures forall g :: g in gs ==> g.total <= m
    ensures gs != [] ==> exists g :: g in gs && g.total == m
  {
    if gs == [] then 0
    else if |gs| == 1 then gs[0].total
    else
      var rest := MaxTotal(gs[..|gs| - 1]);
      assert gs == gs[..|gs| - 1] + [gs[|gs| - 1]];
      if gs[|gs| - 1].total > rest then gs[|gs| - 1].total else rest
  }

  /** The query of get_highest_count: the largest per-code total. */
  function HighestCountQuery(db: Database, col: string): Option<int> {
    if Resolves(db, {col, "count"}) then Some(MaxTotal(GroupBy(db.rows, RowCode, RowCount))) else None
  }

  /** The record the store builds from one result row. */
  function ToRecord(g: Group<KeyId>, date: string): (e: KeystrokeEvent)
    ensures e.keyName == g.key.name && e.date == date && e.count == g.total
    ensures e.keyCode == ToUint32(g.key.code)
    ensures (e.keyCode - g.key.code) % TWO_TO_THE_32 == 0
  {
    KeystrokeEvent(g.key.name, date, ToUint32(g.key.code), g.total)
  }

  function Records(gs: seq<Group<KeyId>>, date: string): (r: seq<KeystrokeEvent>)
    ensures |r| == |gs|
    ensures forall i :: 0 <= i < |gs| ==> r[i] == ToRecord(gs[i], date)
  {
    seq(|gs|, i requires 0 <= i < |gs| => ToRecord(gs[i], date))
  }

  /** The rows read before executeStep raises at step `raiseAt`, if it does. */
  function Taken<T>(s: seq<T>, raiseAt: Option<nat>): (r: seq<T>)
    ensures |r| <= |s| && r == s[..|r|]
    ensures raiseAt.None? ==> r == s
    ensures raiseAt.Some? && raiseAt.value < |s| ==> |r| == raiseAt.value
  {
    if raiseAt.Some? && raiseAt.value < |s| then s[..raiseAt.value] else s
  }

  /** The vector a keystroke query returns: empty if the statement fails to prepare, else the rows read. */
  function Fetched(q: Option<seq<Group<KeyId>>>, raiseAt: Option<nat>, date: string): seq<KeystrokeEvent> {
    if q.None? then [] else Records(Taken(q.value, raiseAt), date)
  }

  /** The vector get_daily_counts returns. */
  function DaysFetched(q: Option<seq<Group<string>>>, raiseAt: Option<nat>): seq<Group<string>> {
    if q.None? then [] else Taken(q.value, raiseAt)
  }

  // ---------------------------------------------------------------------
  // What the queries mean
  // ---------------------------------------------------------------------

  lemma SortsKeyTotals(gs: seq<Group<KeyId>>)
    ensures SortedBy(SortBy(gs, TotalDescending), TotalDescending)
  {
    TotalDescendingIsPreorder<KeyId>();
    SortBySorted(gs, TotalDescending);
  }

  /**
   * Per-(code, name) totals: each pair once, by descending total, each with
   * the sum of its rows' counts, every pair of the table present, and all
   * of them adding up to the table's total count.
   */
  lemma KeyTotalsMeaning(rows: Table)
    ensures var r := KeyTotals(rows);
      && (forall i, j :: 0 <= i < j < |r| ==> r[i].total >= r[j].total && r[i].key != r[j].key)
      && (forall g :: g in r ==> g.total == SumOfKey(rows, RowKeyId, RowCount, g.key))
      && (forall g :: g in r ==> exists row :: row in rows && RowKeyId(row) == g.key)
      && (forall row :: row in rows ==> Group(RowKeyId(row), SumOfKey(rows, RowKeyId, RowCount, RowKeyId(row))) in r)
      && Sum(r, GroupTotal) == TotalCount(rows)
  {
    var gs := GroupBy(rows, RowKeyId, RowCount);
    var r := KeyTotals(rows);
    assert r == SortBy(gs, TotalDescending);
    GroupByMeaning(rows, RowKeyId, RowCount);
    SortsKeyTotals(gs);
    SortByKeepsKeysDistinct(gs, TotalDescending);
    forall i, j | 0 <= i < j < |r| ensures r[i].total >= r[j].total {
      assert TotalDescending(r[i], r[j]);
    }
    forall g ensures g in r <==> g in gs {
      SortedGroupsIff(gs, TotalDescending, g);
    }
    SortByPermutes(gs, TotalDescending);
    SumPermutation(gs, r);
    GroupBySumsToTotal(rows, RowKeyId, RowCount);
  }

  /**
   * On one date UNIQUE(scan_code, date) leaves one row per code, so the
   * entries of that date carry pairwise different keys.
   */
  lemma OnDateEntriesDistinct(rows: Table, d: string)
    ensures DistinctKeys(Entries(Where(rows, OnDate(d))))
  {
    var w := Where(rows, OnDate(d));
    var es := Entries(w);
    WhereKeepsUnique(rows, OnDate(d));
    forall i, j | 0 <= i < j < |es| ensures es[i].key != es[j].key {
      assert w[i] in w && w[j] in w;
      assert OnDate(d)(w[i]) && OnDate(d)(w[j]);
      assert !SameKey(w[i], w[j]);
    }
  }

  /**
   * get_top_keystrokes for one date: at most `limit` rows (no bound for a
   * negative limit), each a row of that date with its own count, each key
   * at most once, by descending count; a row of that date is left out only when `limit`
   * rows were kept, and then it counts no more than any row kept.
   */
  lemma TopOnDateMeaning(rows: Table, d: string, limit: int)
    ensures var s := SortBy(Entries(Where(rows, OnDate(d))), TotalDescending); var r := Limit(s, limit);
      && (0 <= limit ==> |r| <= limit)
      && (forall i, j :: 0 <= i < j < |r| ==> r[i].total >= r[j].total)
      && (forall g :: g in r ==> exists row :: row in rows && row.date == d && RowEntry(row) == g)
      && (forall row :: row in rows && row.date == d ==>
            RowEntry(row) in r || (|r| == limit && forall h :: h in r ==> h.total >= row.count))
      && (forall i, j :: 0 <= i < j < |r| ==> r[i].key != r[j].key)
  {
    var w := Where(rows, OnDate(d));
    var es := Entries(w);
    var s := SortBy(es, TotalDescending);
    var r := Limit(s, limit);
    SortsKeyTotals(es);
    OnDateEntriesDistinct(rows, d);
    SortByKeepsKeysDistinct(es, TotalDescending);
    forall i, j | 0 <= i < j < |r| ensures r[i].key != r[j].key {
      assert r[i] == s[i] && r[j] == s[j];
    }
    forall i, j | 0 <= i < j < |r| ensures r[i].total >= r[j].total {
      assert r[i] == s[i] && r[j] == s[j];
      assert TotalDescending(s[i], s[j]);
    }
    forall g | g in r ensures exists row :: row in rows && row.date == d && RowEntry(row) == g {
      var i :| 0 <= i < |r| && r[i] == g;
      assert s[i] == g;
      SortedGroupsIff(es, TotalDescending, g);
      var k :| 0 <= k < |es| && es[k] == g;
      assert w[k] in w;
      assert OnDate(d)(w[k]);
    }
    forall row | row in rows && row.date == d
      ensures RowEntry(row) in r || (|r| == limit && forall h :: h in r ==> h.total >= row.count)
    {
      assert OnDate(d)(row);
      assert row in w;
      var k :| 0 <= k < |w| && w[k] == row;
      assert es[k] == RowEntry(row);
      SortedGroupsIff(es, TotalDescending, RowEntry(row));
      if RowEntry(row) !in r {
        LimitKeepsFirst(s, TotalDescending, limit, RowEntry(row));
        forall h | h in r ensures h.total >= row.count {
          assert TotalDescending(h, RowEntry(row));
        }
      }
    }
  }

  /**
   * get_daily_counts: at most seven dates, each once, in strictly descending
   * order, each with the sum of its rows' counts; a date is left out only
   * when seven dates were reported, and then it is no later than any of them.
   */
  lemma DailyCountsQueryMeaning(rows: Table)
    ensures var s := SortBy(GroupBy(rows, RowDate, RowCount), DateDescending); var r := Limit(s, DAILY_COUNT_DAYS);
      && |r| <= DAILY_COUNT_DAYS
      && (forall i, j :: 0 <= i < j < |r| ==> StrLe(r[j].key, r[i].key) && r[i].key != r[j].key)
      && (forall g :: g in r ==> g.total == SumOfKey(rows, RowDate, RowCount, g.key))
      && (forall row :: row in rows ==>
            (|| Group(row.date, SumOfKey(rows, RowDate, RowCount, row.date)) in r
             || (|r| == DAILY_COUNT_DAYS && forall h :: h in r ==> StrLe(row.date, h.key))))
      && (forall g :: g in r ==> exists row :: row in rows && row.date == g.key)
  {
    var gs := GroupBy(rows, RowDate, RowCount);
    var s := SortBy(gs, DateDescending);
    var r := Limit(s, DAILY_COUNT_DAYS);
    GroupByMeaning(rows, RowDate, RowCount);
    SortsByDate(gs);
    assert forall i, j :: 0 <= i < j < |gs| ==> gs[i].key != gs[j].key;
    SortByKeepsKeysDistinct(gs, DateDescending);
    assert forall i, j :: 0 <= i < j < |s| ==> s[i].key != s[j].key;
    forall i, j | 0 <= i < j < |r| ensures StrLe(r[j].key, r[i].key) && r[i].key != r[j].key {
      assert r[i] == s[i] && r[j] == s[j];
      assert DateDescending(s[i], s[j]);
    }
    forall g | g in r
      ensures g.total == SumOfKey(rows, RowDate, RowCount, g.key)
      ensures exists row :: row in rows && row.date == g.key
    {
      var i :| 0 <= i < |r| && r[i] == g;
      assert s[i] == g;
      SortedGroupsIff(gs, DateDescending, g);
    }
    forall row | row in rows
      ensures || Group(row.date, SumOfKey(rows, RowDate, RowCount, row.date)) in r
              || (|r| == DAILY_COUNT_DAYS && forall h :: h in r ==> StrLe(row.date, h.key))
    {
      var g := Group(row.date, SumOfKey(rows, RowDate, RowCount, row.date));
      SortedGroupsIff(gs, DateDescending, g);
      if g !in r {
        LimitKeepsFirst(s, DateDescending, DAILY_COUNT_DAYS, g);
        forall h | h in r ensures StrLe(row.date, h.key) {
          assert DateDescending(h, g);
        }
      }
    }
  }

  /** Summing the rows that pass `WHERE date = d` is summing that date's group. */
  lemma {:induction false} WhereDateSum(rows: seq<Row>, d: string)
    ensures Sum(Where(rows, OnDate(d)), RowCount) == SumOfKey(rows, RowDate, RowCount, d)
  {
    if rows != [] {
      var init := rows[..|rows| - 1];
      var last := rows[|rows| - 1];
      WhereDateSum(init, d);
      var wi := Where(init, OnDate(d));
      if OnDate(d)(last) {
        assert Where(rows, OnDate(d)) == wi + [last];
        assert (wi + [last])[..|wi + [last]| - 1] == wi;
      } else {
        assert Where(rows, OnDate(d)) == wi;
      }
    }
  }

  /**
   * get_total_count: without a date it is the table's total count, which is
   * also the sum of the per-key totals; with a date it is that date's sum,
   * the number get_daily_counts reports for the date.
   */
  lemma TotalCountMeaning(rows: Table, d: string)
    ensures TotalCountQuery(BackendDatabase(rows), None) == Some(TotalCount(rows))
    ensures TotalCountQuery(BackendDatabase(rows), None) == Some(Sum(TotalKeyCounts(rows), GroupTotal))
    ensures TotalCountQuery(BackendDatabase(rows), Some(d)) == Some(SumOfKey(rows, RowDate, RowCount, d))
  {
    TotalKeyCountsMeaning(rows);
    WhereDateSum(rows, d);
  }

  /**
   * The highest per-code total: 0 on an empty table, otherwise the total of
   * some code present, and no code's total exceeds it.
   */
  lemma HighestCountMeaning(rows: Table)
    ensures var m := HighestCountQuery(BackendDatabase(rows), SCHEMA_CODE_COLUMN);
      && m.Some?
      && (rows == [] ==> m.value == 0)
      && (forall row :: row in rows ==> SumOfKey(rows, RowCode, RowCount, row.scanCode) <= m.value)
      && (rows != [] ==> exists row :: row in rows && SumOfKey(rows, RowCode, RowCount, row.scanCode) == m.value)
  {
    var gs := GroupBy(rows, RowCode, RowCount);
    GroupByMeaning(rows, RowCode, RowCount);
    var m := MaxTotal(gs);
    assert HighestCountQuery(BackendDatabase(rows), SCHEMA_CODE_COLUMN) == Some(m);
    forall row | row in rows ensures SumOfKey(rows, RowCode, RowCount, row.scanCode) <= m {
      assert Group(row.scanCode, SumOfKey(rows, RowCode, RowCount, row.scanCode)) in gs;
    }
    if rows != [] {
      assert Group(rows[0].scanCode, SumOfKey(rows, RowCode, RowCount, rows[0].scanCode)) in gs;
      var g :| g in gs && g.total == m;
      var row :| row in rows && RowCode(row) == g.key;
      assert SumOfKey(rows, RowCode, RowCount, row.scanCode) == m;
    }
  }

  /**
   * The queries as written, against the backend's table: the four that name
   * `key_code` never prepare, so the store shows no keys and a highest count
   * of 1 whatever the table holds, while the two that do not name it work.
   */
  lemma WrittenQueriesFallBack(rows: Table, limit: int, date: Option<string>)
    ensures AllKeystrokesQuery(BackendDatabase(rows), WRITTEN_CODE_COLUMN).None?
    ensures TopKeystrokesQuery(BackendDatabase(rows), WRITTEN_CODE_COLUMN, limit, date).None?
    ensures HighestCountQuery(BackendDatabase(rows), WRITTEN_CODE_COLUMN).None?
    ensures DailyCountsQuery(BackendDatabase(rows)).Some?
    ensures TotalCountQuery(BackendDatabase(rows), date).Some?
  {
    assert WRITTEN_CODE_COLUMN !in KEYSTROKES_COLUMNS;
  }

  /** The queries with the schema's column name prepare on the backend's table. */
  lemma SchemaQueriesResolve(rows: Table, limit: int, date: Option<string>)
    ensures AllKeystrokesQuery(BackendDatabase(rows), SCHEMA_CODE_COLUMN) == Some(KeyTotals(rows))
    ensures TopKeystrokesQuery(BackendDatabase(rows), SCHEMA_CODE_COLUMN, limit, date).Some?
    ensures date.None? ==> TopKeystrokesQuery(BackendDatabase(rows), SCHEMA_CODE_COLUMN, limit, date) == Some(Limit(KeyTotals(rows), limit))
    ensures HighestCountQuery(BackendDatabase(rows), SCHEMA_CODE_COLUMN).Some?
  {
    assert SCHEMA_CODE_COLUMN in KEYSTROKES_COLUMNS;
  }

  // ---------------------------------------------------------------------
  // The store
  // ---------------------------------------------------------------------

  class KeystrokeStore {
    /** `m_db`, opened read-only. */
    const db: Database
    /** The name the store's queries give the key code column. */
    const codeColumn: string

    constructor Open(database: Database, column: string)
      ensures db == database && codeColumn == column
    {
      db := database;
      codeColumn := column;
    }

    /** The `while (query.executeStep())` loop of the keystroke queries. */
    static method ReadRecords(rows: seq<Group<KeyId>>, date: string, raiseAt: Option<nat>) returns (r: seq<KeystrokeEvent>)
      ensures r == Records(Taken(rows, raiseAt), date)
    {
      r := [];
      var i := 0;
      while i < |rows|
        invariant 0 <= i <= |rows|
        invariant raiseAt.Some? ==> i <= raiseAt.value
        invariant r == Records(rows[..i], date)
      {
        if raiseAt == Some(i) {
          return;
        }
        r := r + [ToRecord(rows[i], date)];
        i := i + 1;
      }
      assert rows[..i] == rows;
    }

    /** get_all_keystrokes: every record carries the empty date. */
    method GetAllKeystrokes(raiseAt: Option<nat>) returns (r: seq<KeystrokeEvent>)
      ensures r == Fetched(AllKeystrokesQuery(db, codeColumn), raiseAt, "")
      ensures forall e :: e in r ==> e.date == ""
    {
      var q := AllKeystrokesQuery(db, codeColumn);
      if q.None? {
        return [];
      }
      r := ReadRecords(q.value, "", raiseAt);
    }

    /** get_top_keystrokes: records carry the requested date, or the empty one. */
    method GetTopKeystrokes(limit: int, date: Option<string>, raiseAt: Option<nat>) returns (r: seq<KeystrokeEvent>)
      ensures r == Fetched(TopKeystrokesQuery(db, codeColumn, limit, date), raiseAt, if date.Some? then date.value else "")
      ensures 0 <= limit ==> |r| <= limit
      ensures forall e :: e in r ==> e.date == if date.Some? then date.value else ""
    {
      var q := TopKeystrokesQuery(db, codeColumn, limit, date);
      if q.None? {
        return [];
      }
      r := ReadRecords(q.value, if date.Some? then date.value else "", raiseAt);
    }

    /** get_daily_counts. */
    method GetDailyCounts(raiseAt: Option<nat>) returns (r: seq<Group<string>>)
      ensures r == DaysFetched(DailyCountsQuery(db), raiseAt)
      ensures |r| <= DAILY_COUNT_DAYS
    {
      var q := DailyCountsQuery(db);
      if q.None? {
        return [];
      }
      r := ReadDays(q.value, raiseAt);
    }

    /** The `while (query.executeStep())` loop of get_daily_counts. */
    static method ReadDays(rows: seq<Group<string>>, raiseAt: Option<nat>) returns (r: seq<Group<string>>)
      ensures r == Taken(rows, raiseAt)
    {
      r := [];
      var i := 0;
      while i < |rows|
        invariant 0 <= i <= |rows|
        invariant raiseAt.Some? ==> i <= raiseAt.value
        invariant r == rows[..i]
      {
        if raiseAt == Some(i) {
          return;
        }
        r := r + [rows[i]];
        i := i + 1;
      }
      assert rows[..i] == rows;
    }

    /** get_total_count: 0 when the statement fails to prepare or raises. */
    function GetTotalCount(date: Option<string>, raises: bool): (n: int)
      ensures raises || TotalCountQuery(db, date).None? ==> n == 0
      ensures !raises && TotalCountQuery(db, date).Some? ==> n == TotalCountQuery(db, date).value
    {
      var q := TotalCountQuery(db, date);
      if raises || q.None? then 0 else q.value
    }

    /** get_highest_count: 1 when the query raises. */
    function GetHighestCount(raises: bool): (n: int)
      ensures raises || HighestCountQuery(db, codeColumn).None? ==> n == 1
      ensures !raises && HighestCountQuery(db, codeColumn).Some? ==> n == HighestCountQuery(db, codeColumn).value
    {
      var q := HighestCountQuery(db, codeColumn);
      if raises || q.None? then 1 else q.value
    }
  }

  /**
   * A store opened on the backend's table as written shows nothing for the
   * key queries and a highest count of 1, even over a non-empty table.
   */
  lemma WrittenStoreShowsNoKeys(rows: Table, limit: int, date: Option<string>, raiseAt: Option<nat>)
    requires rows != []
    ensures Fetched(AllKeystrokesQuery(BackendDatabase(rows), WRITTEN_CODE_COLUMN), raiseAt, "") == []
    ensures Fetched(TopKeystrokesQuery(BackendDatabase(rows), WRITTEN_CODE_COLUMN, limit, date), raiseAt, "") == []
    ensures HighestCountQuery(BackendDatabase(rows), WRITTEN_CODE_COLUMN).None?
    ensures KeyTotals(rows) != []
  {
    WrittenQueriesFallBack(rows, limit, date);
    KeyTotalsMeaning(rows);
    assert Group(RowKeyId(rows[0]), SumOfKey(rows, RowKeyId, RowCount, RowKeyId(rows[0]))) in KeyTotals(rows);
  }
}
