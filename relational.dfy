/**
 * The meaning of the SQL operators the backend's and the frontend's queries
 * are built from, over a table given as a sequence of rows in rowid order:
 * WHERE (Where), GROUP BY with SUM (GroupBy), ORDER BY (SortBy) and LIMIT
 * (Limit). SQLite's own evaluation strategy is not modelled, only what the
 * result of each operator is.
 */
module Relational {

  /** No value occurs twice. */
  predicate Distinct<K(==)>(ks: seq<K>) {
    forall i, j :: 0 <= i < j < |ks| ==> ks[i] != ks[j]
  }

  /** SUM(val) over the rows. */
  function Sum<T>(rows: seq<T>, val: T -> int): int {
    if rows == [] then 0 else Sum(rows[..|rows| - 1], val) + val(rows[|rows| - 1])
  }

  lemma {:induction false} SumAppend<T>(a: seq<T>, b: seq<T>, val: T -> int)
    ensures Sum(a + b, val) == Sum(a, val) + Sum(b, val)
  {
    if b == [] {
      assert a + b == a;
    } else {
      assert (a + b)[..|a + b| - 1] == a + b[..|b| - 1];
      SumAppend(a, b[..|b| - 1], val);
    }
  }

  /** WHERE p: the rows satisfying p, in table order. */
  function Where<T(!new)>(rows: seq<T>, p: T -> bool): (r: seq<T>)
    ensures |r| <= |rows|
    ensures forall x :: x in r <==> x in rows && p(x)
  {
    if rows == [] then []
    else
      assert rows == rows[..|rows| - 1] + [rows[|rows| - 1]];
      var init := Where(rows[..|rows| - 1], p);
      if p(rows[|rows| - 1]) then init + [rows[|rows| - 1]] else init
  }

  /** One GROUP BY output row: the group's key and the SUM over its rows. */
  datatype Group<K> = Group(key: K, total: int)

  /** The distinct group keys of the rows, in order of first appearance. */
  function Keys<T(!new), K(==)>(rows: seq<T>, key: T -> K): (ks: seq<K>)
    ensures Distinct(ks)
    ensures forall x :: x in rows ==> key(x) in ks
    ensures forall k :: k in ks ==> exists x :: x in rows && key(x) == k
  {
    if rows == [] then []
    else
      assert rows == rows[..|rows| - 1] + [rows[|rows| - 1]];
      var ks := Keys(rows[..|rows| - 1], key);
      if key(rows[|rows| - 1]) in ks then ks else ks + [key(rows[|rows| - 1])]
  }

  /** SUM(val) over the rows of group k. */
  function SumOfKey<T, K(==)>(rows: seq<T>, key: T -> K, val: T -> int, k: K): int {
    if rows == [] then 0
    else SumOfKey(rows[..|rows| - 1], key, val, k) + (if key(rows[|rows| - 1]) == k then val(rows[|rows| - 1]) else 0)
  }

  /** One output row per listed key, carrying that key's sum. */
  function Totals<T, K(==)>(ks: seq<K>, rows: seq<T>, key: T -> K, val: T -> int): (gs: seq<Group<K>>)
    ensures |gs| == |ks|
    ensures forall i :: 0 <= i < |ks| ==> gs[i] == Group(ks[i], SumOfKey(rows, key, val, ks[i]))
  {
    if ks == [] then []
    else Totals(ks[..|ks| - 1], rows, key, val) + [Group(ks[|ks| - 1], SumOfKey(rows, key, val, ks[|ks| - 1]))]
  }

  /** GROUP BY key with SUM(val). */
  function GroupBy<T(!new), K(==)>(rows: seq<T>, key: T -> K, val: T -> int): seq<Group<K>> {
    Totals(Keys(rows, key), rows, key, val)
  }

  function GroupTotal<K>(g: Group<K>): int { g.total }

  function GroupKey<K>(g: Group<K>): K { g.key }

  /** What GROUP BY promises: one row per key present, each with the sum of its group. */
  lemma GroupByMeaning<T(!new), K>(rows: seq<T>, key: T -> K, val: T -> int)
    ensures var gs := GroupBy(rows, key, val);
      && (forall i, j :: 0 <= i < j < |gs| ==> gs[i].key != gs[j].key)
      && (forall g :: g in gs ==> g.total == SumOfKey(rows, key, val, g.key))
      && (forall g :: g in gs ==> exists x :: x in rows && key(x) == g.key)
      && (forall x :: x in rows ==> Group(key(x), SumOfKey(rows, key, val, key(x))) in gs)
  {
    var ks := Keys(rows, key);
    var gs := GroupBy(rows, key, val);
    forall g | g in gs
      ensures exists x :: x in rows && key(x) == g.key
    {
      var i :| 0 <= i < |gs| && gs[i] == g;
      assert ks[i] in ks;
    }
    forall x | x in rows
      ensures Group(key(x), SumOfKey(rows, key, val, key(x))) in gs
    {
      var i :| 0 <= i < |ks| && ks[i] == key(x);
      assert gs[i] == Group(key(x), SumOfKey(rows, key, val, key(x)));
    }
  }

  /** Adding one row to a key set's sums adds its value once, if its key is listed. */
  lemma {:induction false} TotalsSnoc<T, K>(ks: seq<K>, rows: seq<T>, x: T, key: T -> K, val: T -> int)
    requires Distinct(ks)
    ensures Sum(Totals(ks, rows + [x], key, val), GroupTotal)
         == Sum(Totals(ks, rows, key, val), GroupTotal) + (if key(x) in ks then val(x) else 0)
  {
    if ks != [] {
      var init := ks[..|ks| - 1];
      var k := ks[|ks| - 1];
      assert ks == init + [k];
      assert Distinct(init);
      assert k !in init;
      TotalsSnoc(init, rows, x, key, val);
      assert (rows + [x])[..|rows + [x]| - 1] == rows;
      var after := Totals(ks, rows + [x], key, val);
      var before := Totals(ks, rows, key, val);
      assert after[..|after| - 1] == Totals(init, rows + [x], key, val);
      assert before[..|before| - 1] == Totals(init, rows, key, val);
    }
  }

  /** The sums over a key set are zero on an empty table. */
  lemma {:induction false} TotalsEmpty<T, K>(ks: seq<K>, key: T -> K, val: T -> int)
    ensures Sum(Totals(ks, [], key, val), GroupTotal) == 0
  {
    if ks != [] {
      var gs := Totals(ks, [], key, val);
      assert gs[..|gs| - 1] == Totals(ks[..|ks| - 1], [], key, val);
      TotalsEmpty(ks[..|ks| - 1], key, val);
    }
  }

  /** Over a duplicate-free key set covering every row, the group sums add up to the table's sum. */
  lemma {:induction false} TotalsCover<T, K>(ks: seq<K>, rows: seq<T>, key: T -> K, val: T -> int)
    requires Distinct(ks)
    requires forall x :: x in rows ==> key(x) in ks
    ensures Sum(Totals(ks, rows, key, val), GroupTotal) == Sum(rows, val)
  {
    if rows == [] {
      TotalsEmpty(ks, key, val);
    } else {
      var init := rows[..|rows| - 1];
      var x := rows[|rows| - 1];
      assert rows == init + [x];
      TotalsCover(ks, init, key, val);
      TotalsSnoc(ks, init, x, key, val);
    }
  }

  /** SUM over the GROUP BY output equals SUM over the table: grouping loses and invents nothing. */
  lemma GroupBySumsToTotal<T(!new), K>(rows: seq<T>, key: T -> K, val: T -> int)
    ensures Sum(GroupBy(rows, key, val), GroupTotal) == Sum(rows, val)
  {
    TotalsCover(Keys(rows, key), rows, key, val);
  }

  /** The comparison is a total preorder: what an ORDER BY on a column or an expression uses. */
  ghost predicate TotalPreorder<T(!new)>(le: (T, T) -> bool) {
    && (forall a, b :: le(a, b) || le(b, a))
    && (forall a, b, c :: le(a, b) && le(b, c) ==> le(a, c))
  }

  /** Every element comes no later in the order than those after it. */
  ghost predicate SortedBy<T>(s: seq<T>, le: (T, T) -> bool) {
    forall i, j :: 0 <= i < j < |s| ==> le(s[i], s[j])
  }

  function Insert<T>(x: T, s: seq<T>, le: (T, T) -> bool): seq<T> {
    if s == [] then [x]
    else if le(x, s[0]) then [x] + s
    else [s[0]] + Insert(x, s[1..], le)
  }

  /**
   * ORDER BY: the rows rearranged in the order `le`. SQL leaves the order of
   * rows that compare equal open; the model fixes one such order.
   */
  function SortBy<T>(s: seq<T>, le: (T, T) -> bool): seq<T> {
    if s == [] then [] else Insert(s[0], SortBy(s[1..], le), le)
  }

  lemma {:induction false} InsertPermutes<T>(x: T, s: seq<T>, le: (T, T) -> bool)
    ensures multiset(Insert(x, s, le)) == multiset(s) + multiset{x}
  {
    if s != [] && !le(x, s[0]) {
      InsertPermutes(x, s[1..], le);
      assert s == [s[0]] + s[1..];
    }
  }

  /** ORDER BY neither adds nor drops nor duplicates a row. */
  lemma {:induction false} SortByPermutes<T>(s: seq<T>, le: (T, T) -> bool)
    ensures multiset(SortBy(s, le)) == multiset(s)
  {
    if s != [] {
      SortByPermutes(s[1..], le);
      InsertPermutes(s[0], SortBy(s[1..], le), le);
      assert s == [s[0]] + s[1..];
    }
  }

  lemma {:induction false} InsertSorted<T(!new)>(x: T, s: seq<T>, le: (T, T) -> bool)
    requires TotalPreorder(le)
    requires SortedBy(s, le)
    ensures SortedBy(Insert(x, s, le), le)
  {
    if s != [] && !le(x, s[0]) {
      var rest := Insert(x, s[1..], le);
      InsertSorted(x, s[1..], le);
      InsertPermutes(x, s[1..], le);
      forall j | 0 <= j < |rest|
        ensures le(s[0], rest[j])
      {
        assert rest[j] in multiset(rest);
        if rest[j] != x {
          assert rest[j] in multiset(s[1..]);
          var m :| 0 <= m < |s[1..]| && s[1..][m] == rest[j];
          assert s[m + 1] == rest[j];
        }
      }
    }
  }

  /** ORDER BY yields its rows in the requested order. */
  lemma {:induction false} SortBySorted<T(!new)>(s: seq<T>, le: (T, T) -> bool)
    requires TotalPreorder(le)
    ensures SortedBy(SortBy(s, le), le)
  {
    if s != [] {
      SortBySorted(s[1..], le);
      InsertSorted(s[0], SortBy(s[1..], le), le);
    }
  }

  /** LIMIT n: the first n rows; SQLite reads a negative limit as no limit. */
  function Limit<T>(s: seq<T>, n: int): (r: seq<T>)
    ensures n < 0 ==> r == s
    ensures 0 <= n ==> |r| == if n < |s| then n else |s|
    ensures r == s[..|r|]
  {
    if n < 0 || |s| <= n then s else s[..n]
  }

  /**
   * Top-K: a row is cut off by LIMIT only when the result is full, and then
   * it comes no earlier in the order than every row that was kept.
   */
  lemma LimitKeepsFirst<T>(s: seq<T>, le: (T, T) -> bool, n: int, x: T)
    requires SortedBy(s, le)
    requires x in s && x !in Limit(s, n)
    ensures 0 <= n < |s| && |Limit(s, n)| == n
    ensures forall y :: y in Limit(s, n) ==> le(y, x)
  {
    var r := Limit(s, n);
    var j :| 0 <= j < |s| && s[j] == x;
    assert |r| <= j;
    forall y | y in r
      ensures le(y, x)
    {
      var i :| 0 <= i < |r| && r[i] == y;
      assert s[i] == y;
    }
  }
}
