/**
 * The keystrokes table and the statements run against it
 * (typetrace/common/sql.hpp). The table is the sequence of its rows in
 * rowid order; the UNIQUE(scan_code, date) constraint is part of its type.
 */
module Sql {
  import opened Optional
  import opened Relational

  /** The columns CREATE_KEYSTROKES_TABLE_SQL declares. */
  const KEYSTROKES_COLUMNS: set<string> := {"id", "scan_code", "key_name", "date", "count"}

  /** One row of `keystrokes` (the autoincrement `id` is not modelled). */
  datatype Row = Row(scanCode: int, keyName: string, date: string, count: int)

  predicate SameKey(a: Row, b: Row) {
    a.scanCode == b.scanCode && a.date == b.date
  }

  /** UNIQUE(scan_code, date). */
  predicate Unique(rows: seq<Row>) {
    forall i, j :: 0 <= i < j < |rows| ==> !SameKey(rows[i], rows[j])
  }

  type Table = rows: seq<Row> | Unique(rows) witness []

  /** Filtering a table keeps UNIQUE(scan_code, date). */
  lemma {:induction false} WhereKeepsUnique(rows: seq<Row>, p: Row -> bool)
    requires Unique(rows)
    ensures Unique(Where(rows, p))
  {
    if rows != [] {
      var init := rows[..|rows| - 1];
      var last := rows[|rows| - 1];
      assert Unique(init) by {
        forall i, j | 0 <= i < j < |init| ensures !SameKey(init[i], init[j]) {
          assert init[i] == rows[i] && init[j] == rows[j];
        }
      }
      WhereKeepsUnique(init, p);
      var wi := Where(init, p);
      if p(last) {
        assert Where(rows, p) == wi + [last];
        forall y | y in wi ensures !SameKey(y, last) {
          var k :| 0 <= k < |init| && init[k] == y;
          assert rows[k] == y;
        }
        var r := wi + [last];
        forall i, j | 0 <= i < j < |r| ensures !SameKey(r[i], r[j]) {
          if j == |wi| {
            assert r[i] in wi;
          } else {
            assert r[i] == wi[i] && r[j] == wi[j];
          }
        }
      }
    }
  }

  function RowCode(r: Row): int { r.scanCode }
  function RowDate(r: Row): string { r.date }
  function RowCount(r: Row): int { r.count }

  /** Index of the row stored under (code, date), if there is one. */
  function Find(t: seq<Row>, code: int, date: string): (r: Option<nat>)
    ensures r.Some? ==> r.value < |t| && t[r.value].scanCode == code && t[r.value].date == date
    ensures r.None? ==> forall i :: 0 <= i < |t| ==> !(t[i].scanCode == code && t[i].date == date)
  {
    if t == [] then None
    else if t[|t| - 1].scanCode == code && t[|t| - 1].date == date then Some(|t| - 1)
    else Find(t[..|t| - 1], code, date)
  }

  /** The row stored under (code, date), if there is one. */
  function Lookup(t: Table, code: int, date: string): Option<Row> {
    match Find(t, code, date)
    case Some(i) => Some(t[i])
    case None => None
  }

  /** The count stored under (code, date); 0 when there is no such row. */
  function CountAt(t: Table, code: int, date: string): int {
    match Lookup(t, code, date)
    case Some(r) => r.count
    case None => 0
  }

  /** Lookup finds exactly the row whose key matches: the table has at most one. */
  lemma LookupIff(t: Table, code: int, date: string, r: Row)
    ensures Lookup(t, code, date) == Some(r) <==> r in t && r.scanCode == code && r.date == date
  {
    if r in t && r.scanCode == code && r.date == date {
      var i :| 0 <= i < |t| && t[i] == r;
      var j := Find(t, code, date).value;
      assert !(i < j || j < i) by {
        if i < j { assert SameKey(t[i], t[j]); }
        if j < i { assert SameKey(t[j], t[i]); }
      }
    }
  }

  /** Lookup misses exactly when no row has the key. */
  lemma LookupNone(t: Table, code: int, date: string)
    ensures Lookup(t, code, date).None? <==> forall r :: r in t ==> !(r.scanCode == code && r.date == date)
  {
  }

  /**
   * UPSERT_KEYSTROKE_SQL bound to (code, name, date): insert the pair with
   * count 1, or, on a UNIQUE conflict, add 1 to the count and overwrite the
   * key name.
   */
  function Upsert(t: Table, code: int, name: string, date: string): (r: Table)
    ensures |r| == |t| + (if Lookup(t, code, date).None? then 1 else 0)
  {
    match Find(t, code, date)
    case Some(i) => t[i := Row(code, name, date, t[i].count + 1)]
    case None => t + [Row(code, name, date, 1)]
  }

  /** The row under the written key is (code, name, date, old count + 1); every other key is untouched. */
  lemma UpsertMeaning(t: Table, code: int, name: string, date: string)
    ensures Lookup(Upsert(t, code, name, date), code, date) == Some(Row(code, name, date, CountAt(t, code, date) + 1))
    ensures forall c, d :: c != code || d != date ==> Lookup(Upsert(t, code, name, date), c, d) == Lookup(t, c, d)
  {
    var r := Upsert(t, code, name, date);
    var row := Row(code, name, date, CountAt(t, code, date) + 1);
    match Find(t, code, date) {
      case Some(i) =>
        LookupIff(t, code, date, t[i]);
        assert r[i] == row;
      case None =>
        assert r[|t|] == row;
    }
    LookupIff(r, code, date, row);
    forall c, d | c != code || d != date
      ensures Lookup(r, c, d) == Lookup(t, c, d)
    {
      match Lookup(t, c, d)
      case Some(x) =>
        LookupIff(t, c, d, x);
        var i :| 0 <= i < |t| && t[i] == x;
        assert r[i] == x;
        LookupIff(r, c, d, x);
      case None =>
        LookupNone(t, c, d);
        LookupNone(r, c, d);
    }
  }

  /** SUM(count) over the whole table. */
  function TotalCount(t: seq<Row>): int {
    Sum(t, RowCount)
  }

  lemma {:induction false} SumUpdate(t: seq<Row>, i: nat, x: Row)
    requires i < |t|
    ensures TotalCount(t[i := x]) == TotalCount(t) - t[i].count + x.count
  {
    var u := t[i := x];
    if i < |t| - 1 {
      assert u[..|u| - 1] == t[..|t| - 1][i := x];
      SumUpdate(t[..|t| - 1], i, x);
    } else {
      assert u[..|u| - 1] == t[..|t| - 1];
    }
  }

  /** Every upsert adds exactly one to the table's total count. */
  lemma UpsertAddsOne(t: Table, code: int, name: string, date: string)
    ensures TotalCount(Upsert(t, code, name, date)) == TotalCount(t) + 1
  {
    match Find(t, code, date)
    case Some(i) =>
      SumUpdate(t, i, Row(code, name, date, t[i].count + 1));
    case None =>
      SumAppend(t, [Row(code, name, date, 1)], RowCount);
      assert Sum([Row(code, name, date, 1)], RowCount) == 1;
  }

  /** CLEAR_KEYSTROKES_TABLE_SQL. */
  function Clear(t: Table): (r: Table)
    ensures forall c, d :: Lookup(r, c, d).None?
    ensures TotalCount(r) == 0
  {
    []
  }

  // ---------------------------------------------------------------------
  // Read queries
  // ---------------------------------------------------------------------

  /** TEXT comparison under SQLite's BINARY collation: lexicographic by code point. */
  predicate StrLe(a: string, b: string) {
    if a == [] then true
    else if b == [] then false
    else if a[0] != b[0] then a[0] < b[0]
    else StrLe(a[1..], b[1..])
  }

  lemma StrLeTotal(a: string, b: string)
    ensures StrLe(a, b) || StrLe(b, a)
  {
  }

  lemma StrLeTransitive(a: string, b: string, c: string)
    requires StrLe(a, b) && StrLe(b, c)
    ensures StrLe(a, c)
  {
  }

  lemma StrLeAntisymmetric(a: string, b: string)
    requires StrLe(a, b) && StrLe(b, a)
    ensures a == b
  {
    if a != [] && b != [] {
      StrLeAntisymmetric(a[1..], b[1..]);
      assert a == [a[0]] + a[1..] && b == [b[0]] + b[1..];
    }
  }

  /** ORDER BY scan_code ASC. */
  predicate CodeAscending(a: Group<int>, b: Group<int>) { a.key <= b.key }

  /** ORDER BY date DESC. */
  predicate DateDescending(a: Group<string>, b: Group<string>) { StrLe(b.key, a.key) }

  /** ORDER BY total_presses DESC. */
  predicate TotalDescending<K>(a: Group<K>, b: Group<K>) { a.total >= b.total }

  lemma CodeAscendingIsPreorder()
    ensures TotalPreorder(CodeAscending)
  {
  }

  lemma DateDescendingIsPreorder()
    ensures TotalPreorder(DateDescending)
  {
    forall a: Group<string>, b: Group<string> ensures DateDescending(a, b) || DateDescending(b, a) {
      StrLeTotal(a.key, b.key);
    }
    forall a: Group<string>, b: Group<string>, c: Group<string> | DateDescending(a, b) && DateDescending(b, c)
      ensures DateDescending(a, c)
    {
      StrLeTransitive(c.key, b.key, a.key);
    }
  }

  lemma TotalDescendingIsPreorder<K(!new)>()
    ensures TotalPreorder(TotalDescending<K>)
  {
  }

  /** ORDER BY on each of the three orders sorts (kept apart so the preorder facts stay local). */
  lemma SortsByCode(gs: seq<Group<int>>)
    ensures SortedBy(SortBy(gs, CodeAscending), CodeAscending)
  {
    CodeAscendingIsPreorder();
    SortBySorted(gs, CodeAscending);
  }

  lemma SortsByDate(gs: seq<Group<string>>)
    ensures SortedBy(SortBy(gs, DateDescending), DateDescending)
  {
    DateDescendingIsPreorder();
    SortBySorted(gs, DateDescending);
  }

  lemma SortsByTotal(gs: seq<Group<int>>)
    ensures SortedBy(SortBy(gs, TotalDescending), TotalDescending)
  {
    TotalDescendingIsPreorder<int>();
    SortBySorted(gs, TotalDescending);
  }

  /** `WHERE date BETWEEN lo AND hi`. */
  function Between(lo: string, hi: string): Row -> bool {
    (r: Row) => StrLe(lo, r.date) && StrLe(r.date, hi)
  }

  /** `WHERE date >= since`. */
  function OnOrAfter(since: string): Row -> bool {
    (r: Row) => StrLe(since, r.date)
  }

  /** GET_TOTAL_KEY_COUNTS_SQL. */
  function TotalKeyCounts(t: Table): seq<Group<int>> {
    SortBy(GroupBy(t, RowCode, RowCount), CodeAscending)
  }

  /**
   * GET_DAILY_COUNTS_SQL, with the window's bounds (computed by SQLite from
   * the current date and the day count) given as date strings.
   */
  function DailyCounts(t: Table, lo: string, hi: string): seq<Group<string>> {
    SortBy(GroupBy(Where(t, Between(lo, hi)), RowDate, RowCount), DateDescending)
  }

  /** GET_TOP_KEYS_SQL, with the window's first day given as a date string. */
  function TopKeys(t: Table, since: string, limit: int): seq<Group<int>> {
    Limit(SortBy(GroupBy(Where(t, OnOrAfter(since)), RowCode, RowCount), TotalDescending), limit)
  }

  /** No two group rows carry the same key. */
  ghost predicate DistinctKeys<K>(gs: seq<Group<K>>) {
    forall i, j :: 0 <= i < j < |gs| ==> gs[i].key != gs[j].key
  }

  /** Inserting a row with a fresh key keeps the keys pairwise different. */
  lemma {:induction false} InsertKeepsKeysDistinct<K>(x: Group<K>, s: seq<Group<K>>, le: (Group<K>, Group<K>) -> bool)
    requires DistinctKeys(s)
    requires forall y :: y in s ==> y.key != x.key
    ensures DistinctKeys(Insert(x, s, le))
  {
    if s != [] && !le(x, s[0]) {
      var rest := Insert(x, s[1..], le);
      InsertKeepsKeysDistinct(x, s[1..], le);
      InsertPermutes(x, s[1..], le);
      forall y | y in rest ensures y.key != s[0].key {
        assert y in multiset(rest);
        if y != x {
          assert y in multiset(s[1..]);
          var m :| 0 <= m < |s[1..]| && s[1..][m] == y;
          assert s[m + 1] == y;
        }
      }
      var r := [s[0]] + rest;
      forall i, j | 0 <= i < j < |r| ensures r[i].key != r[j].key {
        if i == 0 { assert r[j] == rest[j - 1]; assert rest[j - 1] in rest; }
      }
    }
  }

  /** Sorting the tail of a key-distinct sequence never brings in the head's key. */
  lemma SortedTailAvoidsHead<K>(s: seq<Group<K>>, le: (Group<K>, Group<K>) -> bool)
    requires s != [] && DistinctKeys(s)
    ensures forall y :: y in SortBy(s[1..], le) ==> y.key != s[0].key
  {
    var tail := s[1..];
    var sorted := SortBy(tail, le);
    SortByPermutes(tail, le);
    forall y | y in sorted ensures y.key != s[0].key {
      assert y in multiset(sorted);
      assert y in multiset(tail);
      var m :| 0 <= m < |tail| && tail[m] == y;
      assert s[m + 1] == y;
    }
  }

  /** ORDER BY keeps the keys of its input pairwise different. */
  lemma {:induction false} SortByKeepsKeysDistinct<K>(s: seq<Group<K>>, le: (Group<K>, Group<K>) -> bool)
    requires DistinctKeys(s)
    ensures DistinctKeys(SortBy(s, le))
  {
    if s != [] {
      var tail := s[1..];
      assert DistinctKeys(tail) by {
        forall i, j | 0 <= i < j < |tail| ensures tail[i].key != tail[j].key {
          assert tail[i] == s[i + 1] && tail[j] == s[j + 1];
        }
      }
      SortByKeepsKeysDistinct(tail, le);
      SortedTailAvoidsHead(s, le);
      InsertKeepsKeysDistinct(s[0], SortBy(tail, le), le);
    }
  }

  /** A group row is in the sorted output exactly when it is in the grouped one. */
  lemma SortedGroupsIff<K>(gs: seq<Group<K>>, le: (Group<K>, Group<K>) -> bool, g: Group<K>)
    ensures g in SortBy(gs, le) <==> g in gs
  {
    SortByPermutes(gs, le);
    assert g in SortBy(gs, le) <==> g in multiset(SortBy(gs, le));
    assert g in gs <==> g in multiset(gs);
  }

  /**
   * Per-key totals: one row per scan_code present, in strictly ascending
   * scan_code order, each carrying the sum of that code's counts; together
   * they add up to the table's total count.
   */
  lemma TotalKeyCountsMeaning(t: Table)
    ensures var r := TotalKeyCounts(t);
      && (forall i, j :: 0 <= i < j < |r| ==> r[i].key < r[j].key)
      && (forall g :: g in r ==> g.total == SumOfKey(t, RowCode, RowCount, g.key))
      && (forall row :: row in t ==> Group(row.scanCode, SumOfKey(t, RowCode, RowCount, row.scanCode)) in r)
      && (forall g :: g in r ==> exists row :: row in t && row.scanCode == g.key)
      && Sum(r, GroupTotal) == TotalCount(t)
  {
    var gs := GroupBy(t, RowCode, RowCount);
    var r := TotalKeyCounts(t);
    GroupByMeaning(t, RowCode, RowCount);
    SortsByCode(gs);
    SortByKeepsKeysDistinct(gs, CodeAscending);
    forall g ensures g in r <==> g in gs {
      SortedGroupsIff(gs, CodeAscending, g);
    }
    SortByPermutes(gs, CodeAscending);
    SumPermutation(gs, r);
    GroupBySumsToTotal(t, RowCode, RowCount);
  }

  /** Sums of group totals do not depend on the order of the groups. */
  lemma {:induction false} SumPermutation<K>(a: seq<Group<K>>, b: seq<Group<K>>)
    requires multiset(a) == multiset(b)
    ensures Sum(a, GroupTotal) == Sum(b, GroupTotal)
  {
    if a != [] {
      var x := a[|a| - 1];
      assert a == a[..|a| - 1] + [x];
      assert x in multiset(b);
      var k :| 0 <= k < |b| && b[k] == x;
      var rest := b[..k] + b[k + 1..];
      assert b == b[..k] + [x] + b[k + 1..];
      assert multiset(rest) == multiset(b) - multiset{x};
      assert multiset(a[..|a| - 1]) == multiset(a) - multiset{x};
      SumPermutation(a[..|a| - 1], rest);
      SumAppend(b[..k] + [x], b[k + 1..], GroupTotal);
      SumAppend(b[..k], [x], GroupTotal);
      SumAppend(b[..k], b[k + 1..], GroupTotal);
      assert Sum([x], GroupTotal) == x.total;
    }
  }

  /**
   * Daily totals: every row lies inside [lo, hi] and carries the sum of its
   * date's counts, and every date of the window is reported.
   */
  lemma DailyCountsGroups(t: Table, lo: string, hi: string)
    ensures var r := DailyCounts(t, lo, hi); var w := Where(t, Between(lo, hi));
      && (forall g :: g in r ==> StrLe(lo, g.key) && StrLe(g.key, hi))
      && (forall g :: g in r ==> g.total == SumOfKey(w, RowDate, RowCount, g.key))
      && (forall row :: row in t && StrLe(lo, row.date) && StrLe(row.date, hi) ==> Group(row.date, SumOfKey(w, RowDate, RowCount, row.date)) in r)
      && (forall g :: g in r ==> exists row :: row in t && StrLe(lo, row.date) && StrLe(row.date, hi) && row.date == g.key)
  {
    var w := Where(t, Between(lo, hi));
    var gs := GroupBy(w, RowDate, RowCount);
    var r := DailyCounts(t, lo, hi);
    GroupByMeaning(w, RowDate, RowCount);
    forall g | g in r
      ensures StrLe(lo, g.key) && StrLe(g.key, hi)
      ensures g.total == SumOfKey(w, RowDate, RowCount, g.key)
      ensures exists row :: row in t && StrLe(lo, row.date) && StrLe(row.date, hi) && row.date == g.key
    {
      SortedGroupsIff(gs, DateDescending, g);
      var row :| row in w && RowDate(row) == g.key;
      assert Between(lo, hi)(row);
    }
    forall row | row in t && StrLe(lo, row.date) && StrLe(row.date, hi)
      ensures Group(row.date, SumOfKey(w, RowDate, RowCount, row.date)) in r
    {
      assert Between(lo, hi)(row);
      assert row in w;
      SortedGroupsIff(gs, DateDescending, Group(row.date, SumOfKey(w, RowDate, RowCount, row.date)));
    }
  }

  /** Grouped by date and sorted, the dates come strictly descending. */
  lemma DailyCountsOrdered(t: Table, lo: string, hi: string)
    ensures var r := DailyCounts(t, lo, hi);
      forall i, j :: 0 <= i < j < |r| ==> StrLe(r[j].key, r[i].key) && r[i].key != r[j].key
  {
    var w := Where(t, Between(lo, hi));
    var gs := GroupBy(w, RowDate, RowCount);
    GroupByMeaning(w, RowDate, RowCount);
    var r := SortBy(gs, DateDescending);
    assert r == DailyCounts(t, lo, hi);
    SortsByDate(gs);
    assert forall i, j :: 0 <= i < j < |gs| ==> gs[i].key != gs[j].key;
    SortByKeepsKeysDistinct(gs, DateDescending);
    assert var r' := SortBy(gs, DateDescending); forall i, j :: 0 <= i < j < |r'| ==> r'[i].key != r'[j].key;
    assert forall i, j :: 0 <= i < j < |r| ==> r[i].key != r[j].key;
    forall i, j | 0 <= i < j < |r| ensures StrLe(r[j].key, r[i].key) {
      assert DateDescending(r[i], r[j]);
    }
  }

  /** The rows of the top-keys query, before LIMIT. */
  function TopKeysSorted(t: Table, since: string): seq<Group<int>> {
    SortBy(GroupBy(Where(t, OnOrAfter(since)), RowCode, RowCount), TotalDescending)
  }

  lemma TopKeysSortedMeaning(t: Table, since: string)
    ensures var s := TopKeysSorted(t, since); var w := Where(t, OnOrAfter(since));
      && SortedBy(s, TotalDescending)
      && (forall i, j :: 0 <= i < j < |s| ==> s[i].key != s[j].key)
      && (forall g :: g in s ==> g.total == SumOfKey(w, RowCode, RowCount, g.key))
      && (forall g :: g in s ==> exists row :: row in t && StrLe(since, row.date) && row.scanCode == g.key)
      && (forall row :: row in w ==> Group(row.scanCode, SumOfKey(w, RowCode, RowCount, row.scanCode)) in s)
  {
    var w := Where(t, OnOrAfter(since));
    var gs := GroupBy(w, RowCode, RowCount);
    var s := TopKeysSorted(t, since);
    GroupByMeaning(w, RowCode, RowCount);
    SortsByTotal(gs);
    SortByKeepsKeysDistinct(gs, TotalDescending);
    assert s == SortBy(gs, TotalDescending);
    forall g | g in s
      ensures g.total == SumOfKey(w, RowCode, RowCount, g.key)
      ensures exists row :: row in t && StrLe(since, row.date) && row.scanCode == g.key
    {
      SortedGroupsIff(gs, TotalDescending, g);
      var row :| row in w && RowCode(row) == g.key;
      assert OnOrAfter(since)(row);
    }
    forall row | row in w
      ensures Group(row.scanCode, SumOfKey(w, RowCode, RowCount, row.scanCode)) in s
    {
      SortedGroupsIff(gs, TotalDescending, Group(row.scanCode, SumOfKey(w, RowCode, RowCount, row.scanCode)));
    }
  }

  /**
   * Top keys: per-scan_code sums over the rows on or after `since`, in
   * descending total order, at most `limit` of them (no bound for a negative
   * limit); a code of the window is cut off only when `limit` codes were
   * kept, and then its total is no larger than any code that was kept.
   */
  lemma TopKeysMeaning(t: Table, since: string, limit: int)
    ensures var r := TopKeys(t, since, limit); var w := Where(t, OnOrAfter(since));
      && (0 <= limit ==> |r| <= limit)
      && (forall i, j :: 0 <= i < j < |r| ==> r[i].total >= r[j].total && r[i].key != r[j].key)
      && (forall g :: g in r ==> g.total == SumOfKey(w, RowCode, RowCount, g.key))
      && (forall g :: g in r ==> exists row :: row in t && StrLe(since, row.date) && row.scanCode == g.key)
      && (forall row :: row in t && StrLe(since, row.date) ==>
            var g := Group(row.scanCode, SumOfKey(w, RowCode, RowCount, row.scanCode));
            g in r || (|r| == limit && forall h :: h in r ==> h.total >= g.total))
  {
    var w := Where(t, OnOrAfter(since));
    var sorted := TopKeysSorted(t, since);
    var r := TopKeys(t, since, limit);
    assert r == Limit(sorted, limit);
    TopKeysSortedMeaning(t, since);
    forall i, j | 0 <= i < j < |r| ensures r[i].total >= r[j].total && r[i].key != r[j].key {
      assert r[i] == sorted[i] && r[j] == sorted[j];
      assert TotalDescending(sorted[i], sorted[j]);
    }
    forall g | g in r ensures g in sorted {
      var i :| 0 <= i < |r| && r[i] == g;
      assert sorted[i] == g;
    }
    forall row | row in t && StrLe(since, row.date)
      ensures var g := Group(row.scanCode, SumOfKey(w, RowCode, RowCount, row.scanCode));
        g in r || (|r| == limit && forall h :: h in r ==> h.total >= g.total)
    {
      var g := Group(row.scanCode, SumOfKey(w, RowCode, RowCount, row.scanCode));
      assert row in w;
      if g !in r {
        LimitKeepsFirst(sorted, TotalDescending, limit, g);
        forall h | h in r ensures h.total >= g.total {
          assert TotalDescending(h, g);
        }
      }
    }
  }
}
