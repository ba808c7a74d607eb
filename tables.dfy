/**
 * The semantics of one Room table whose primary key is
 * `@PrimaryKey(autoGenerate = true) val id: Int`, i.e. an SQLite
 * `INTEGER PRIMARY KEY AUTOINCREMENT` column.
 *
 * A table is its rows in primary-key order (the order in which SQLite walks
 * the rowid B-tree, so the order `SELECT *` returns them in) together with
 * the value SQLite keeps for it in `sqlite_sequence`: the largest key the
 * table has ever held. A row is its key and its other columns.
 *
 * The generated DAO statements are:
 *   insert: `INSERT OR IGNORE INTO t (id, ...) VALUES (nullif(?, 0), ...)`
 *   update: `UPDATE OR ABORT t SET id = ?, ... WHERE id = ?` (same id twice)
 *   delete: `DELETE FROM t WHERE id = ?`
 */
module Tables {
  import opened Common

  datatype Row<C> = Row(key: int, cols: C)

  datatype Table<C> = Table(rows: seq<Row<C>>, sequence: int)

  /** Keys strictly increase along the rows: the key is unique and the rows
      are in key order. */
  ghost predicate Sorted<C>(rows: seq<Row<C>>) {
    forall i, j :: 0 <= i < j < |rows| ==> rows[i].key < rows[j].key
  }

  ghost predicate HasKey<C>(rows: seq<Row<C>>, key: int) {
    exists i :: 0 <= i < |rows| && rows[i].key == key
  }

  /** The invariant SQLite keeps: sorted keys, none above the sequence. */
  ghost predicate WellFormed<C>(t: Table<C>) {
    && t.sequence >= 0
    && Sorted(t.rows)
    && (forall i :: 0 <= i < |t.rows| ==> t.rows[i].key <= t.sequence)
  }

  /** A freshly created table. */
  function EmptyTable<C>(): (t: Table<C>)
    ensures WellFormed(t) && t.rows == []
  {
    Table([], 0)
  }

  /** `SELECT * FROM t WHERE id = ?`: the columns of the row with that key. */
  function Lookup<C>(rows: seq<Row<C>>, key: int): (r: Option<C>)
    ensures r.None? <==> !HasKey(rows, key)
    ensures r.Some? ==> Row(key, r.value) in rows
  {
    if rows == [] then None
    else if rows[0].key == key then Some(rows[0].cols)
    else
      var rest := Lookup(rows[1..], key);
      assert HasKey(rows, key) <==> HasKey(rows[1..], key) by {
        if HasKey(rows, key) {
          var i :| 0 <= i < |rows| && rows[i].key == key;
          assert rows[1..][i - 1].key == key;
        }
        if HasKey(rows[1..], key) {
          var i :| 0 <= i < |rows[1..]| && rows[1..][i].key == key;
          assert rows[i + 1].key == key;
        }
      }
      rest
  }

  /** In a sorted table the lookup of a row's key finds that row. */
  lemma {:induction false} LookupAt<C>(rows: seq<Row<C>>, i: int)
    requires Sorted(rows) && 0 <= i < |rows|
    ensures Lookup(rows, rows[i].key) == Some(rows[i].cols)
  {
    if i > 0 {
      assert rows[0].key < rows[i].key;
      assert rows[1..][i - 1] == rows[i];
      LookupAt(rows[1..], i - 1);
    }
  }

  /** The key the insert statement binds: `nullif(id, 0)`, where NULL makes
      AUTOINCREMENT choose one more than the largest key ever used. */
  function InsertKey<C>(t: Table<C>, id: int): int {
    if id == 0 then t.sequence + 1 else id
  }

  /** The row placed where its key belongs in the key order. */
  function InsertSorted<C>(rows: seq<Row<C>>, r: Row<C>): seq<Row<C>> {
    if rows == [] || r.key < rows[0].key then [r] + rows
    else [rows[0]] + InsertSorted(rows[1..], r)
  }

  /** `INSERT OR IGNORE ... VALUES (nullif(?, 0), ...)`. */
  function InsertOrIgnore<C>(t: Table<C>, id: int, cols: C): Table<C> {
    var k := InsertKey(t, id);
    if Lookup(t.rows, k).Some? then t
    else Table(InsertSorted(t.rows, Row(k, cols)), if k > t.sequence then k else t.sequence)
  }

  /** The rows with the columns of the row keyed `key` replaced. */
  function ReplaceCols<C>(rows: seq<Row<C>>, key: int, cols: C): (r: seq<Row<C>>)
    ensures |r| == |rows|
    ensures forall i :: 0 <= i < |rows| ==>
      r[i] == if rows[i].key == key then Row(key, cols) else rows[i]
  {
    seq(|rows|, i requires 0 <= i < |rows| => if rows[i].key == key then Row(key, cols) else rows[i])
  }

  /** `UPDATE OR ABORT ... SET id = ?, ... WHERE id = ?`. */
  function UpdateRow<C>(t: Table<C>, key: int, cols: C): Table<C> {
    Table(ReplaceCols(t.rows, key, cols), t.sequence)
  }

  /** The rows other than the one keyed `key`. */
  function RemoveKey<C>(rows: seq<Row<C>>, key: int): seq<Row<C>> {
    if rows == [] then []
    else if rows[0].key == key then RemoveKey(rows[1..], key)
    else [rows[0]] + RemoveKey(rows[1..], key)
  }

  /** `DELETE FROM t WHERE id = ?`. */
  function DeleteRow<C>(t: Table<C>, key: int): Table<C> {
    Table(RemoveKey(t.rows, key), t.sequence)
  }

  // ---------------------------------------------------------------------
  // Insert

  /** A suffix of sorted rows is sorted. */
  lemma SortedTail<C>(rows: seq<Row<C>>)
    requires Sorted(rows) && rows != []
    ensures Sorted(rows[1..])
  {
    var tail := rows[1..];
    forall i, j | 0 <= i < j < |tail| ensures tail[i].key < tail[j].key {
      assert tail[i] == rows[i + 1] && tail[j] == rows[j + 1];
    }
  }

  /** A key occurs in non-empty rows iff it is the first key or occurs later. */
  lemma HasKeyCons<C>(rows: seq<Row<C>>, key: int)
    requires rows != []
    ensures HasKey(rows, key) <==> rows[0].key == key || HasKey(rows[1..], key)
  {
    if HasKey(rows, key) && rows[0].key != key {
      var i :| 0 <= i < |rows| && rows[i].key == key;
      assert rows[1..][i - 1].key == key;
    }
    if HasKey(rows[1..], key) {
      var i :| 0 <= i < |rows[1..]| && rows[1..][i].key == key;
      assert rows[i + 1].key == key;
    }
  }

  /** Placing a row adds exactly that row. */
  lemma {:induction false} InsertSortedElements<C>(rows: seq<Row<C>>, r: Row<C>)
    ensures multiset(InsertSorted(rows, r)) == multiset(rows) + multiset{r}
  {
    if !(rows == [] || r.key < rows[0].key) {
      InsertSortedElements(rows[1..], r);
      assert rows == [rows[0]] + rows[1..];
    }
  }

  /** Placing a row keeps every key above a bound that all keys exceeded. */
  lemma InsertSortedExceeds<C>(rows: seq<Row<C>>, r: Row<C>, bound: int)
    requires forall i :: 0 <= i < |rows| ==> bound < rows[i].key
    requires bound < r.key
    ensures forall j :: 0 <= j < |InsertSorted(rows, r)| ==> bound < InsertSorted(rows, r)[j].key
  {
    var res := InsertSorted(rows, r);
    InsertSortedElements(rows, r);
    forall j | 0 <= j < |res| ensures bound < res[j].key {
      assert res[j] in multiset(res);
      if res[j] != r {
        assert res[j] in rows;
      }
    }
  }

  /** Rows with a smaller key in front of sorted rows are sorted. */
  lemma SortedCons<C>(head: Row<C>, rest: seq<Row<C>>)
    requires Sorted(rest)
    requires forall j :: 0 <= j < |rest| ==> head.key < rest[j].key
    ensures Sorted([head] + rest)
  {
    var res := [head] + rest;
    forall i, j | 0 <= i < j < |res| ensures res[i].key < res[j].key {
      assert res[j] == rest[j - 1];
      if i > 0 { assert res[i] == rest[i - 1]; }
    }
  }

  /** Placing a row whose key is new keeps the key order. */
  lemma {:induction false} InsertSortedSorted<C>(rows: seq<Row<C>>, r: Row<C>)
    requires Sorted(rows) && !HasKey(rows, r.key)
    ensures Sorted(InsertSorted(rows, r))
  {
    if rows == [] || r.key < rows[0].key {
      assert forall j :: 0 <= j < |rows| ==> r.key < rows[j].key by {
        forall j | 0 < j < |rows| ensures r.key < rows[j].key {
          assert rows[0].key < rows[j].key;
        }
      }
      SortedCons(r, rows);
    } else {
      var tail := rows[1..];
      SortedTail(rows);
      HasKeyCons(rows, r.key);
      InsertSortedSorted(tail, r);
      assert forall i :: 0 <= i < |tail| ==> rows[0].key < tail[i].key by {
        forall i | 0 <= i < |tail| ensures rows[0].key < tail[i].key {
          assert tail[i] == rows[i + 1];
        }
      }
      InsertSortedExceeds(tail, r, rows[0].key);
      SortedCons(rows[0], InsertSorted(tail, r));
    }
  }

  /** After placing a row whose key is new, that key finds it and every other
      key keeps its lookup. */
  lemma {:induction false} InsertSortedLookup<C>(rows: seq<Row<C>>, r: Row<C>, k: int)
    requires !HasKey(rows, r.key)
    ensures Lookup(InsertSorted(rows, r), k) == (if k == r.key then Some(r.cols) else Lookup(rows, k))
  {
    if rows == [] || r.key < rows[0].key {
      assert ([r] + rows)[1..] == rows;
    } else {
      HasKeyCons(rows, r.key);
      InsertSortedLookup(rows[1..], r, k);
      assert ([rows[0]] + InsertSorted(rows[1..], r))[1..] == InsertSorted(rows[1..], r);
    }
  }

  /** Placing a row keeps the order, adds exactly that row, and makes its
      key map to its columns while every other key keeps its lookup. */
  lemma InsertSortedProperties<C>(rows: seq<Row<C>>, r: Row<C>)
    requires Sorted(rows) && !HasKey(rows, r.key)
    ensures multiset(InsertSorted(rows, r)) == multiset(rows) + multiset{r}
    ensures Sorted(InsertSorted(rows, r))
    ensures forall k ::
      Lookup(InsertSorted(rows, r), k) == (if k == r.key then Some(r.cols) else Lookup(rows, k))
  {
    InsertSortedElements(rows, r);
    InsertSortedSorted(rows, r);
    forall k ensures Lookup(InsertSorted(rows, r), k) ==
      (if k == r.key then Some(r.cols) else Lookup(rows, k))
    {
      InsertSortedLookup(rows, r, k);
    }
  }

  /** A table with every key at most `bound` keeps that bound when a row
      keyed at most `bound` is placed in it. */
  lemma {:induction false} InsertSortedBounded<C>(rows: seq<Row<C>>, r: Row<C>, bound: int)
    requires forall i :: 0 <= i < |rows| ==> rows[i].key <= bound
    requires r.key <= bound
    ensures forall i :: 0 <= i < |InsertSorted(rows, r)| ==> InsertSorted(rows, r)[i].key <= bound
  {
    if !(rows == [] || r.key < rows[0].key) {
      var tail := rows[1..];
      assert forall i :: 0 <= i < |tail| ==> tail[i] == rows[i + 1];
      InsertSortedBounded(tail, r, bound);
    }
  }

  /** A row whose key is above every key goes last. */
  lemma {:induction false} InsertSortedAbove<C>(rows: seq<Row<C>>, r: Row<C>)
    requires forall i :: 0 <= i < |rows| ==> rows[i].key < r.key
    ensures InsertSorted(rows, r) == rows + [r]
  {
    if rows != [] {
      var tail := rows[1..];
      assert forall i :: 0 <= i < |tail| ==> tail[i] == rows[i + 1];
      InsertSortedAbove(tail, r);
      assert rows == [rows[0]] + tail;
    }
  }

  /** INSERT OR IGNORE: the key it binds is `nullif(id, 0)`; a key already
      present leaves the table unchanged; otherwise exactly that key gains the
      columns, every other key keeps its row, and the sequence becomes the
      largest key ever used. The table stays well formed. */
  lemma InsertOrIgnoreSpec<C>(t: Table<C>, id: int, cols: C)
    requires WellFormed(t)
    ensures WellFormed(InsertOrIgnore(t, id, cols))
    ensures HasKey(t.rows, InsertKey(t, id)) ==> InsertOrIgnore(t, id, cols) == t
    ensures !HasKey(t.rows, InsertKey(t, id)) ==>
      && (forall k :: Lookup(InsertOrIgnore(t, id, cols).rows, k) ==
            (if k == InsertKey(t, id) then Some(cols) else Lookup(t.rows, k)))
      && multiset(InsertOrIgnore(t, id, cols).rows) == multiset(t.rows) + multiset{Row(InsertKey(t, id), cols)}
      && InsertOrIgnore(t, id, cols).sequence >= InsertKey(t, id)
  {
    var k := InsertKey(t, id);
    if !HasKey(t.rows, k) {
      var r := Row(k, cols);
      InsertSortedProperties(t.rows, r);
      var s := if k > t.sequence then k else t.sequence;
      InsertSortedBounded(t.rows, r, s);
    }
  }

  /** With id 0 the generated key is new, larger than every key the table has
      ever held (so keys are never reused), the row goes last, and it is
      never ignored. */
  lemma GeneratedKeyIsFresh<C>(t: Table<C>, cols: C)
    requires WellFormed(t)
    ensures InsertKey(t, 0) > t.sequence && InsertKey(t, 0) >= 1
    ensures !HasKey(t.rows, InsertKey(t, 0))
    ensures InsertOrIgnore(t, 0, cols) == Table(t.rows + [Row(InsertKey(t, 0), cols)], InsertKey(t, 0))
  {
    var k := InsertKey(t, 0);
    InsertSortedAbove(t.rows, Row(k, cols));
  }

  // ---------------------------------------------------------------------
  // Update

  /** UPDATE: the row with the key gets the new columns; nothing else moves;
      with no such row it is a no-op. The table stays well formed. */
  lemma UpdateRowSpec<C>(t: Table<C>, key: int, cols: C)
    requires WellFormed(t)
    ensures WellFormed(UpdateRow(t, key, cols))
    ensures forall k ::
      Lookup(UpdateRow(t, key, cols).rows, k) == (if k == key && HasKey(t.rows, key) then Some(cols) else Lookup(t.rows, k))
    ensures !HasKey(t.rows, key) ==> UpdateRow(t, key, cols) == t
    ensures |UpdateRow(t, key, cols).rows| == |t.rows|
  {
    var rows := ReplaceCols(t.rows, key, cols);
    forall k ensures Lookup(rows, k) ==
      (if k == key && HasKey(t.rows, key) then Some(cols) else Lookup(t.rows, k))
    {
      if HasKey(t.rows, k) {
        var i :| 0 <= i < |t.rows| && t.rows[i].key == k;
        LookupAt(t.rows, i);
        LookupAt(rows, i);
      } else {
        forall i | 0 <= i < |rows| ensures rows[i].key != k {
          assert rows[i].key == t.rows[i].key;
        }
      }
    }
    if !HasKey(t.rows, key) {
      assert rows == t.rows;
    }
  }

  /** Writing the same row twice is writing it once. */
  lemma UpdateRowIdempotent<C>(t: Table<C>, key: int, cols: C)
    ensures UpdateRow(UpdateRow(t, key, cols), key, cols) == UpdateRow(t, key, cols)
  {
    assert ReplaceCols(ReplaceCols(t.rows, key, cols), key, cols) == ReplaceCols(t.rows, key, cols);
  }

  // ---------------------------------------------------------------------
  // Delete

  /** Removing a key keeps only rows of the input, none with that key, and
      leaves rows without it untouched. */
  lemma {:induction false} RemoveKeyElements<C>(rows: seq<Row<C>>, key: int)
    ensures forall i :: 0 <= i < |RemoveKey(rows, key)| ==>
      RemoveKey(rows, key)[i] in rows && RemoveKey(rows, key)[i].key != key
    ensures !HasKey(rows, key) ==> RemoveKey(rows, key) == rows
  {
    if rows != [] {
      RemoveKeyElements(rows[1..], key);
      HasKeyCons(rows, key);
      var rest := RemoveKey(rows[1..], key);
      assert forall x :: x in rest ==> x in rows;
      if rows[0].key != key {
        assert rows == [rows[0]] + rows[1..];
        var res := [rows[0]] + rest;
        forall i | 0 <= i < |res| ensures res[i] in rows && res[i].key != key {
          if i > 0 { assert res[i] == rest[i - 1]; }
        }
      }
    }
  }

  /** Removing a key from sorted rows keeps them sorted. */
  lemma {:induction false} RemoveKeySorted<C>(rows: seq<Row<C>>, key: int)
    requires Sorted(rows)
    ensures Sorted(RemoveKey(rows, key))
  {
    if rows != [] {
      SortedTail(rows);
      RemoveKeySorted(rows[1..], key);
      RemoveKeyElements(rows[1..], key);
      var rest := RemoveKey(rows[1..], key);
      if rows[0].key != key {
        var res := [rows[0]] + rest;
        forall j | 0 <= j < |rest| ensures rows[0].key < rest[j].key {
          var m :| 0 <= m < |rows[1..]| && rows[1..][m] == rest[j];
          assert rows[m + 1] == rest[j];
        }
        forall i, j | 0 <= i < j < |res| ensures res[i].key < res[j].key {
          assert res[j] == rest[j - 1];
          if i > 0 { assert res[i] == rest[i - 1]; }
        }
      }
    }
  }

  /** After removing a key from sorted rows it finds nothing, and every other
      key keeps its lookup. */
  lemma {:induction false} RemoveKeyLookup<C>(rows: seq<Row<C>>, key: int, k: int)
    requires Sorted(rows)
    ensures Lookup(RemoveKey(rows, key), k) == (if k == key then None else Lookup(rows, k))
  {
    if rows != [] {
      SortedTail(rows);
      RemoveKeyLookup(rows[1..], key, k);
      if rows[0].key == key {
        forall i | 0 <= i < |rows[1..]| ensures rows[1..][i].key != key {
          assert rows[0].key < rows[i + 1].key;
        }
      } else {
        assert ([rows[0]] + RemoveKey(rows[1..], key))[1..] == RemoveKey(rows[1..], key);
      }
    }
  }

  /** Removing a present key removes exactly one row. */
  lemma {:induction false} RemoveKeyLength<C>(rows: seq<Row<C>>, key: int)
    requires Sorted(rows) && HasKey(rows, key)
    ensures |RemoveKey(rows, key)| == |rows| - 1
  {
    SortedTail(rows);
    HasKeyCons(rows, key);
    if rows[0].key == key {
      forall i | 0 <= i < |rows[1..]| ensures rows[1..][i].key != key {
        assert rows[0].key < rows[i + 1].key;
      }
      RemoveKeyElements(rows[1..], key);
    } else {
      RemoveKeyLength(rows[1..], key);
    }
  }

  /** DELETE: the key disappears, every other key keeps its row, deleting an
      absent key is a no-op. No key returns, and the sequence is kept, so a
      deleted key is never handed out again. */
  lemma DeleteRowSpec<C>(t: Table<C>, key: int)
    requires WellFormed(t)
    ensures WellFormed(DeleteRow(t, key))
    ensures forall k :: Lookup(DeleteRow(t, key).rows, k) == (if k == key then None else Lookup(t.rows, k))
    ensures !HasKey(t.rows, key) ==> DeleteRow(t, key) == t
    ensures HasKey(t.rows, key) ==> |DeleteRow(t, key).rows| == |t.rows| - 1
    ensures DeleteRow(t, key).sequence == t.sequence
  {
    RemoveKeySorted(t.rows, key);
    RemoveKeyElements(t.rows, key);
    forall k ensures Lookup(DeleteRow(t, key).rows, k) == (if k == key then None else Lookup(t.rows, k)) {
      RemoveKeyLookup(t.rows, key, k);
    }
    if HasKey(t.rows, key) { RemoveKeyLength(t.rows, key); }
    var rows := RemoveKey(t.rows, key);
    forall i | 0 <= i < |rows| ensures rows[i].key <= t.sequence {
      var m :| 0 <= m < |t.rows| && t.rows[m] == rows[i];
    }
  }

  // ---------------------------------------------------------------------
  // Statements with a WHERE clause on a non-key column

  /** The rows whose columns satisfy `keep`, in key order: the result of
      `SELECT * ... WHERE`, and what `DELETE ... WHERE` leaves behind when
      `keep` is the negated condition. */
  function Where<C>(rows: seq<Row<C>>, keep: C -> bool): seq<Row<C>> {
    if rows == [] then []
    else (if keep(rows[0].cols) then [rows[0]] else []) + Where(rows[1..], keep)
  }

  /** The selected rows are rows of the table that satisfy the condition,
      and every row that satisfies it is selected. */
  lemma {:induction false} WhereElements<C>(rows: seq<Row<C>>, keep: C -> bool)
    ensures forall i :: 0 <= i < |Where(rows, keep)| ==>
      Where(rows, keep)[i] in rows && keep(Where(rows, keep)[i].cols)
    ensures forall i :: 0 <= i < |rows| && keep(rows[i].cols) ==> rows[i] in Where(rows, keep)
  {
    if rows != [] {
      WhereElements(rows[1..], keep);
      var head := if keep(rows[0].cols) then [rows[0]] else [];
      var res := head + Where(rows[1..], keep);
      forall i | 0 <= i < |res| ensures res[i] in rows && keep(res[i].cols) {
        if i >= |head| {
          assert res[i] == Where(rows[1..], keep)[i - |head|];
        }
      }
      forall i | 0 <= i < |rows| && keep(rows[i].cols) ensures rows[i] in res {
        if i > 0 { assert rows[i] == rows[1..][i - 1]; }
      }
    }
  }

  /** Selecting from sorted rows keeps them sorted. */
  lemma {:induction false} WhereSorted<C>(rows: seq<Row<C>>, keep: C -> bool)
    requires Sorted(rows)
    ensures Sorted(Where(rows, keep))
  {
    if rows != [] {
      SortedTail(rows);
      WhereSorted(rows[1..], keep);
      if keep(rows[0].cols) {
        var rest := Where(rows[1..], keep);
        var res := [rows[0]] + rest;
        WhereElements(rows[1..], keep);
        forall j | 0 <= j < |rest| ensures rows[0].key < rest[j].key {
          var m :| 0 <= m < |rows[1..]| && rows[1..][m] == rest[j];
          assert rows[m + 1] == rest[j];
        }
        forall i, j | 0 <= i < j < |res| ensures res[i].key < res[j].key {
          assert res[j] == rest[j - 1];
          if i > 0 { assert res[i] == rest[i - 1]; }
        }
      }
    }
  }

  /** In sorted rows, a key keeps its row after the selection exactly when
      that row satisfies the condition. */
  lemma {:induction false} WhereLookup<C>(rows: seq<Row<C>>, keep: C -> bool, k: int)
    requires Sorted(rows)
    ensures Lookup(Where(rows, keep), k) ==
      (if Lookup(rows, k).Some? && keep(Lookup(rows, k).value) then Lookup(rows, k) else None)
  {
    if rows != [] {
      SortedTail(rows);
      WhereLookup(rows[1..], keep, k);
      var rest := Where(rows[1..], keep);
      if keep(rows[0].cols) {
        assert Where(rows, keep) == [rows[0]] + rest;
        assert ([rows[0]] + rest)[1..] == rest;
      } else {
        assert Where(rows, keep) == rest;
      }
      if rows[0].key == k {
        assert !HasKey(rows[1..], k) by {
          forall i | 0 <= i < |rows[1..]| ensures rows[1..][i].key != k {
            assert rows[1..][i] == rows[i + 1];
          }
        }
        assert Lookup(rows[1..], k) == None;
      }
    }
  }

  /** A selection whose condition every row meets keeps every row, and one
      that no row meets keeps none. */
  lemma {:induction false} WhereAllOrNone<C>(rows: seq<Row<C>>, keep: C -> bool)
    ensures (forall i :: 0 <= i < |rows| ==> keep(rows[i].cols)) ==> Where(rows, keep) == rows
    ensures (forall i :: 0 <= i < |rows| ==> !keep(rows[i].cols)) ==> Where(rows, keep) == []
  {
    if rows != [] {
      WhereAllOrNone(rows[1..], keep);
      assert forall i :: 0 <= i < |rows[1..]| ==> rows[1..][i] == rows[i + 1];
      assert rows == [rows[0]] + rows[1..];
    }
  }

  /** A second selection whose condition implies the first is not affected
      by the first. */
  lemma {:induction false} WhereWhere<C>(rows: seq<Row<C>>, first: C -> bool, second: C -> bool)
    requires forall i :: 0 <= i < |rows| && second(rows[i].cols) ==> first(rows[i].cols)
    ensures Where(Where(rows, first), second) == Where(rows, second)
  {
    if rows != [] {
      assert forall i :: 0 <= i < |rows[1..]| ==> rows[1..][i] == rows[i + 1];
      WhereWhere(rows[1..], first, second);
      var head := if first(rows[0].cols) then [rows[0]] else [];
      WhereAppend(head, Where(rows[1..], first), second);
      if head != [] {
        assert head[1..] == [];
      }
    }
  }

  lemma {:induction false} WhereAppend<C>(a: seq<Row<C>>, b: seq<Row<C>>, keep: C -> bool)
    ensures Where(a + b, keep) == Where(a, keep) + Where(b, keep)
  {
    if a == [] {
      assert a + b == b;
    } else {
      var head := if keep(a[0].cols) then [a[0]] else [];
      assert (a + b)[0] == a[0];
      assert (a + b)[1..] == a[1..] + b;
      WhereAppend(a[1..], b, keep);
      assert Where(a + b, keep) == head + (Where(a[1..], keep) + Where(b, keep));
      assert Where(a, keep) == head + Where(a[1..], keep);
    }
  }

  /** `DELETE ... WHERE` on a well formed table leaves it well formed. */
  lemma WhereWellFormed<C>(t: Table<C>, keep: C -> bool)
    requires WellFormed(t)
    ensures WellFormed(Table(Where(t.rows, keep), t.sequence))
  {
    WhereSorted(t.rows, keep);
    WhereElements(t.rows, keep);
    var rows := Where(t.rows, keep);
    forall i | 0 <= i < |rows| ensures rows[i].key <= t.sequence {
      var m :| 0 <= m < |t.rows| && t.rows[m] == rows[i];
    }
  }

  // ---------------------------------------------------------------------
  // A repository that only delegates to its DAO is the table itself.

  class Repository<C> {
    var table: Table<C>

    ghost predicate Valid()
      reads this
    {
      WellFormed(table)
    }

    constructor ()
      ensures Valid() && table == EmptyTable()
    {
      table := EmptyTable();
    }

    /** `insert*` (`@Insert(onConflict = OnConflictStrategy.IGNORE)`). */
    method Insert(id: int, cols: C)
      requires Valid()
      modifies this
      ensures Valid()
      ensures table == InsertOrIgnore(old(table), id, cols)
    {
      InsertOrIgnoreSpec(table, id, cols);
      table := InsertOrIgnore(table, id, cols);
    }

    /** `update*` (`@Update`). */
    method Update(id: int, cols: C)
      requires Valid()
      modifies this
      ensures Valid()
      ensures table == UpdateRow(old(table), id, cols)
    {
      UpdateRowSpec(table, id, cols);
      table := UpdateRow(table, id, cols);
    }

    /** `delete*` (`@Delete`). */
    method Delete(id: int)
      requires Valid()
      modifies this
      ensures Valid()
      ensures table == DeleteRow(old(table), id)
    {
      DeleteRowSpec(table, id);
      table := DeleteRow(table, id);
    }

    /** `get*Stream(id)`: the row with that key, or `null`. */
    function Get(id: int): (r: Option<C>)
      reads this
      ensures r.Some? <==> HasKey(table.rows, id)
      ensures r.Some? ==> Row(id, r.value) in table.rows
    {
      Lookup(table.rows, id)
    }
  }
}
