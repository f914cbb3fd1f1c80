/** Byte-string keys in bytes.Compare order, and the sorted rows of a table. */
module KeyOrder {
  import StableSort

  type byte = x: int | 0 <= x < 256
  type Key = seq<byte>

  datatype Record = Record(key: Key, value: seq<byte>)

  type Table = map<Key, seq<byte>>

  /** bytes.Compare(a, b) < 0 */
  predicate Less(a: Key, b: Key) {
    b != [] && (a == [] || a[0] < b[0] || (a[0] == b[0] && Less(a[1..], b[1..])))
  }

  lemma {:induction false} LessIrreflexive(a: Key)
    ensures !Less(a, a)
  {
    if a != [] {
      LessIrreflexive(a[1..]);
    }
  }

  lemma {:induction false} LessTransitive(a: Key, b: Key, c: Key)
    requires Less(a, b) && Less(b, c)
    ensures Less(a, c)
  {
    if a != [] && a[0] == b[0] == c[0] {
      LessTransitive(a[1..], b[1..], c[1..]);
    }
  }

  lemma {:induction false} LessTotal(a: Key, b: Key)
    ensures Less(a, b) || a == b || Less(b, a)
  {
    if a != [] && b != [] && a[0] == b[0] {
      LessTotal(a[1..], b[1..]);
      assert a == [a[0]] + a[1..] && b == [b[0]] + b[1..];
    }
  }

  /** Byte order: `a` ends within `b`, or has the smaller byte where they first differ. */
  predicate Below(a: Key, b: Key) {
    exists n: nat :: n <= |a| && n < |b| && a[..n] == b[..n] && (n == |a| || a[n] < b[n])
  }

  lemma {:induction false} LessIff(a: Key, b: Key)
    ensures Less(a, b) <==> Below(a, b)
  {
    if a == [] || b == [] || a[0] != b[0] {
      if b != [] && (a == [] || a[0] < b[0]) {
        assert a[..0] == b[..0];
      }
      forall n: nat | 0 < n <= |a| && n < |b| ensures a[..n] != b[..n] {
        assert a[..n][0] == a[0] && b[..n][0] == b[0];
      }
    } else {
      var x, y := a[1..], b[1..];
      LessIff(x, y);
      if n: nat :| n <= |x| && n < |y| && x[..n] == y[..n] && (n == |x| || x[n] < y[n]) {
        assert a[..n + 1] == [a[0]] + x[..n] && b[..n + 1] == [b[0]] + y[..n];
        assert a[..n + 1] == b[..n + 1];
      }
      if n: nat :| n <= |a| && n < |b| && a[..n] == b[..n] && (n == |a| || a[n] < b[n]) {
        assert n > 0;
        assert a[..n] == [a[0]] + x[..n - 1] && b[..n] == [b[0]] + y[..n - 1];
        assert x[..n - 1] == y[..n - 1] by {
          assert a[..n][1..] == x[..n - 1] && b[..n][1..] == y[..n - 1];
        }
      }
    }
  }

  ghost predicate StrictlySorted(rows: seq<Record>) {
    forall i, j :: 0 <= i < j < |rows| ==> Less(rows[i].key, rows[j].key)
  }

  /** The rows list the table, once each, in key order. */
  ghost predicate IsRows(rows: seq<Record>, table: Table) {
    && StrictlySorted(rows)
    && (forall i :: 0 <= i < |rows| ==> rows[i].key in table && table[rows[i].key] == rows[i].value)
    && (forall key :: key in table ==> exists i :: 0 <= i < |rows| && rows[i].key == key)
  }

  /** A table has only one such list. */
  lemma {:induction false} RowsUnique(a: seq<Record>, b: seq<Record>, table: Table)
    requires IsRows(a, table) && IsRows(b, table)
    ensures a == b
    decreases |a|
  {
    hide Less;
    if a == [] {
      if b != [] {
        LastIsMax(b, a, table);
      }
    } else {
      LastIsMax(a, b, table);
      DropLast(a, table);
      DropLast(b, table);
      RowsUnique(a[..|a| - 1], b[..|b| - 1], table - {a[|a| - 1].key});
      assert a == a[..|a| - 1] + [a[|a| - 1]] && b == b[..|b| - 1] + [b[|b| - 1]];
    }
  }

  /** The last rows of both lists are the same. */
  lemma LastIsMax(a: seq<Record>, b: seq<Record>, table: Table)
    requires IsRows(a, table) && IsRows(b, table) && a != []
    ensures b != [] && b[|b| - 1] == a[|a| - 1]
  {
    var x := a[|a| - 1];
    assert x.key in table;
    var j :| 0 <= j < |b| && b[j].key == x.key;
    var y := b[|b| - 1];
    assert y.key in table;
    var i :| 0 <= i < |a| && a[i].key == y.key;
    hide Less;
    if j < |b| - 1 {
      assert Less(b[j].key, y.key);
      if i < |a| - 1 {
        assert Less(a[i].key, x.key);
        LessTransitive(x.key, y.key, x.key);
      }
      LessIrreflexive(x.key);
    }
  }

  lemma DropLast(a: seq<Record>, table: Table)
    requires IsRows(a, table) && a != []
    ensures IsRows(a[..|a| - 1], table - {a[|a| - 1].key})
  {
    var x, front := a[|a| - 1], a[..|a| - 1];
    forall i | 0 <= i < |front| ensures front[i].key != x.key {
      assert Less(a[i].key, x.key);
      LessIrreflexive(x.key);
    }
    forall key | key in table - {x.key} ensures exists i :: 0 <= i < |front| && front[i].key == key {
      var i :| 0 <= i < |a| && a[i].key == key;
      assert front[i].key == key;
    }
  }

  function RowLess(): (Record, Record) -> bool {
    (a: Record, b: Record) => Less(a.key, b.key)
  }

  predicate Lists(rows: seq<Record>, table: Table) {
    forall i :: 0 <= i < |rows| ==> rows[i].key in table && table[rows[i].key] == rows[i].value
  }

  predicate Covers(rows: seq<Record>, table: Table) {
    forall key :: key in table ==> exists i :: 0 <= i < |rows| && rows[i].key == key
  }

  lemma ListsInAnyOrder(a: seq<Record>, b: seq<Record>, table: Table)
    requires multiset(a) == multiset(b) && Lists(a, table)
    ensures Lists(b, table)
  {
    forall i | 0 <= i < |b|
      ensures b[i].key in table && table[b[i].key] == b[i].value
    {
      assert b[i] in multiset(a);
    }
  }

  lemma CoversInAnyOrder(a: seq<Record>, b: seq<Record>, table: Table)
    requires multiset(a) == multiset(b) && Covers(a, table)
    ensures Covers(b, table)
  {
    forall key | key in table
      ensures exists i :: 0 <= i < |b| && b[i].key == key
    {
      var i :| 0 <= i < |a| && a[i].key == key;
      assert a[i] in multiset(b);
      var k :| 0 <= k < |b| && b[k] == a[i];
    }
  }

  /** Rows in any order, with distinct keys, sort to the table's rows. */
  lemma SortedIsRows(rows: seq<Record>, table: Table)
    requires forall i :: 0 <= i < |rows| ==> rows[i].key in table && table[rows[i].key] == rows[i].value
    requires forall i, j :: 0 <= i < j < |rows| ==> rows[i].key != rows[j].key
    requires forall key :: key in table ==> exists i :: 0 <= i < |rows| && rows[i].key == key
    ensures IsRows(StableSort.Sort(rows, RowLess()), table)
  {
    hide Less, StableSort.Sort, StrictlySorted, IsRows, RowLess;
    var sorted := StableSort.Sort(rows, RowLess());
    SortedStrictly(rows);
    ListsInAnyOrder(rows, sorted, table);
    CoversInAnyOrder(rows, sorted, table);
    MakesRows(sorted, table);
  }

  lemma MakesRows(rows: seq<Record>, table: Table)
    requires StrictlySorted(rows) && Lists(rows, table) && Covers(rows, table)
    ensures IsRows(rows, table)
  {
    hide StrictlySorted;
  }

  lemma SortedStrictly(rows: seq<Record>)
    requires forall i, j :: 0 <= i < j < |rows| ==> rows[i].key != rows[j].key
    ensures StrictlySorted(StableSort.Sort(rows, RowLess()))
  {
    hide Less;
    var sorted := StableSort.Sort(rows, RowLess());
    RowLessConsistent(rows);
    StableSort.SortSorted(rows, RowLess());
    forall i, j | 0 <= i < j < |sorted| ensures Less(sorted[i].key, sorted[j].key) {
      assert !RowLess()(sorted[j], sorted[i]);
      LessTotal(sorted[i].key, sorted[j].key);
      SortedKeysDiffer(rows, sorted, i, j);
    }
  }

  lemma SortedKeysDiffer(rows: seq<Record>, sorted: seq<Record>, i: nat, j: nat)
    requires multiset(rows) == multiset(sorted) && i < j < |sorted|
    requires forall i, j :: 0 <= i < j < |rows| ==> rows[i].key != rows[j].key
    ensures sorted[i].key != sorted[j].key
  {
    assert sorted[i] in multiset(rows) && sorted[j] in multiset(rows);
    if sorted[i].key == sorted[j].key {
      assert sorted[i] in rows && sorted[j] in rows;
      RepeatedRow(sorted, i, j);
      RowsCountOnce(rows, sorted[i]);
    }
  }

  lemma RowLessConsistent(rows: seq<Record>)
    ensures StableSort.Consistent(rows, RowLess())
  {
    hide Less;
    forall x: Record, y: Record | Less(x.key, y.key) ensures !Less(y.key, x.key) {
      if Less(y.key, x.key) {
        LessTransitive(x.key, y.key, x.key);
        LessIrreflexive(x.key);
      }
    }
    forall x: Record, y: Record, z: Record | !Less(y.key, x.key) && !Less(z.key, y.key) ensures !Less(z.key, x.key) {
      if Less(z.key, x.key) {
        LessTotal(x.key, y.key);
        LessTotal(y.key, z.key);
        if Less(x.key, y.key) {
          LessTransitive(z.key, x.key, y.key);
        }
      }
    }
  }

  lemma RepeatedRow(rows: seq<Record>, i: nat, j: nat)
    requires i < j < |rows| && rows[i] == rows[j]
    ensures multiset(rows)[rows[i]] >= 2
  {
    assert rows == rows[..j] + rows[j..];
    assert rows[..j][i] == rows[i] && rows[j..][0] == rows[i];
    assert rows[i] in multiset(rows[..j]) && rows[i] in multiset(rows[j..]);
  }

  lemma {:induction false} RowsCountOnce(rows: seq<Record>, x: Record)
    requires forall i, j :: 0 <= i < j < |rows| ==> rows[i].key != rows[j].key
    ensures multiset(rows)[x] <= 1
    decreases |rows|
  {
    if rows != [] {
      assert rows == rows[..|rows| - 1] + [rows[|rows| - 1]];
      RowsCountOnce(rows[..|rows| - 1], x);
    }
  }
}
