/**
 * The generated Room DAO of the `items` table (ProyectoInsano iteration):
 * how an `Item` is bound to the columns of a row, how a row is read back,
 * and what each of the SQL statements does to the table.
 */
module ItemDaoImpl {
  import opened Common
  import opened Tables

  /** The `Item` entity of this iteration. */
  datatype Item = Item(
    id: int,
    titulo: string,
    descripcion: string,
    clasificacion: string,
    horaCumplimiento: Option<Long>,
    estado: bool)

  /** The non-key columns of a row of `items` as SQLite holds them:
      `horaCumplimiento` is an INTEGER or NULL and `estado` an INTEGER. */
  datatype ItemColumns = ItemColumns(
    titulo: string,
    descripcion: string,
    clasificacion: string,
    horaCumplimiento: Option<Long>,
    estado: int)

  /** The statement binding shared by insert and update: a null
      `horaCumplimiento` is bound as NULL, `estado` as 1 or 0. */
  function Bind(item: Item): ItemColumns {
    ItemColumns(item.titulo, item.descripcion, item.clasificacion, item.horaCumplimiento,
                if item.estado then 1 else 0)
  }

  /** The cursor decoding shared by every query: NULL reads as null,
      `estado` reads as `!= 0`. */
  function ReadRow(row: Row<ItemColumns>): Item {
    Item(row.key, row.cols.titulo, row.cols.descripcion, row.cols.clasificacion,
         row.cols.horaCumplimiento, row.cols.estado != 0)
  }

  /** Only 0 and 1 are ever stored in `estado`. */
  ghost predicate Encoded(c: ItemColumns) {
    c.estado == 0 || c.estado == 1
  }

  /** Writing an item and reading the row back gives the same item, and what
      is written is in the stored form. */
  lemma ItemRoundTrip(item: Item)
    ensures ReadRow(Row(item.id, Bind(item))) == item
    ensures Encoded(Bind(item))
  {
  }

  /** Reading a stored row and writing it back gives the same columns. */
  lemma RowRoundTrip(row: Row<ItemColumns>)
    requires Encoded(row.cols)
    ensures ReadRow(row).id == row.key
    ensures Bind(ReadRow(row)) == row.cols
  {
  }

  // ---------------------------------------------------------------------
  // The results of the queries, as functions of the table's rows.

  /** `SELECT * from items`: every row, in key order. */
  function AllItems(rows: seq<Row<ItemColumns>>): (r: seq<Item>)
    ensures |r| == |rows|
    ensures forall i :: 0 <= i < |rows| ==> r[i] == ReadRow(rows[i])
  {
    seq(|rows|, i requires 0 <= i < |rows| => ReadRow(rows[i]))
  }

  /** The rows whose `clasificacion` is `c`, decoded, in key order. */
  function OfClass(rows: seq<Row<ItemColumns>>, c: string): seq<Item>
    decreases |rows|
  {
    if rows == [] then []
    else
      var last := rows[|rows| - 1];
      OfClass(rows[..|rows| - 1], c) + (if last.cols.clasificacion == c then [ReadRow(last)] else [])
  }

  /** An item is of class `c` exactly when it comes from a row of that
      class. */
  lemma {:induction false} OfClassMembers(rows: seq<Row<ItemColumns>>, c: string, item: Item)
    ensures item in OfClass(rows, c) <==>
      exists i :: 0 <= i < |rows| && rows[i].cols.clasificacion == c && ReadRow(rows[i]) == item
    decreases |rows|
  {
    if rows != [] {
      var init := rows[..|rows| - 1];
      OfClassMembers(init, c, item);
      if item in OfClass(init, c) {
        var i :| 0 <= i < |init| && init[i].cols.clasificacion == c && ReadRow(init[i]) == item;
        assert rows[i] == init[i];
      }
      if exists i :: 0 <= i < |rows| && rows[i].cols.clasificacion == c && ReadRow(rows[i]) == item {
        var i :| 0 <= i < |rows| && rows[i].cols.clasificacion == c && ReadRow(rows[i]) == item;
        if i < |rows| - 1 {
          assert init[i] == rows[i];
        }
      }
    }
  }

  /** `ORDER BY horaCumplimiento`: SQLite sorts NULL before every value. */
  predicate HoraLeq(a: Option<Long>, b: Option<Long>) {
    a.None? || (b.Some? && a.value <= b.value)
  }

  ghost predicate SortedByHora(s: seq<Item>) {
    forall i, j :: 0 <= i < j < |s| ==> HoraLeq(s[i].horaCumplimiento, s[j].horaCumplimiento)
  }

  /** `x` placed after every item not later than it. */
  function InsertByHora(s: seq<Item>, x: Item): seq<Item> {
    if s == [] then [x]
    else if !HoraLeq(s[0].horaCumplimiento, x.horaCumplimiento) then [x] + s
    else [s[0]] + InsertByHora(s[1..], x)
  }

  lemma {:induction false} InsertByHoraElements(s: seq<Item>, x: Item)
    ensures multiset(InsertByHora(s, x)) == multiset(s) + multiset{x}
  {
    if s != [] && HoraLeq(s[0].horaCumplimiento, x.horaCumplimiento) {
      InsertByHoraElements(s[1..], x);
      assert s == [s[0]] + s[1..];
    }
  }

  lemma {:induction false} InsertByHoraSorted(s: seq<Item>, x: Item)
    requires SortedByHora(s)
    ensures SortedByHora(InsertByHora(s, x))
  {
    var res := InsertByHora(s, x);
    if s == [] {
    } else if !HoraLeq(s[0].horaCumplimiento, x.horaCumplimiento) {
      forall i, j | 0 <= i < j < |res| ensures HoraLeq(res[i].horaCumplimiento, res[j].horaCumplimiento) {
        assert res[j] == s[j - 1];
        if i > 0 {
          assert res[i] == s[i - 1];
        } else if j > 1 {
          assert HoraLeq(s[0].horaCumplimiento, s[j - 1].horaCumplimiento);
        }
      }
    } else {
      var tail := s[1..];
      assert SortedByHora(tail) by {
        forall i, j | 0 <= i < j < |tail|
          ensures HoraLeq(tail[i].horaCumplimiento, tail[j].horaCumplimiento)
        {
          assert tail[i] == s[i + 1] && tail[j] == s[j + 1];
        }
      }
      InsertByHoraSorted(tail, x);
      InsertByHoraElements(tail, x);
      var rest := InsertByHora(tail, x);
      forall j | 0 <= j < |rest| ensures HoraLeq(s[0].horaCumplimiento, rest[j].horaCumplimiento) {
        assert rest[j] in multiset(rest);
        if rest[j] != x {
          assert rest[j] in tail;
          var m :| 0 <= m < |tail| && tail[m] == rest[j];
          assert s[m + 1] == rest[j];
        }
      }
      forall i, j | 0 <= i < j < |res| ensures HoraLeq(res[i].horaCumplimiento, res[j].horaCumplimiento) {
        assert res[j] == rest[j - 1];
        if i > 0 { assert res[i] == rest[i - 1]; }
      }
    }
  }

  /** One step of the class query: after the rows up to `k`, the sorted
      result holds the items of class `c` in them. */
  lemma ClassiStep(rows: seq<Row<ItemColumns>>, c: string, k: nat, result: seq<Item>)
    requires k < |rows|
    requires SortedByHora(result) && multiset(result) == multiset(OfClass(rows[..k], c))
    ensures var next := if rows[k].cols.clasificacion == c then InsertByHora(result, ReadRow(rows[k])) else result;
      SortedByHora(next) && multiset(next) == multiset(OfClass(rows[..k + 1], c))
  {
    assert rows[..k + 1][..k] == rows[..k];
    if rows[k].cols.clasificacion == c {
      InsertByHoraSorted(result, ReadRow(rows[k]));
      InsertByHoraElements(result, ReadRow(rows[k]));
    }
  }

  /** Every row is in the stored form. */
  ghost predicate AllEncoded(rows: seq<Row<ItemColumns>>) {
    forall i :: 0 <= i < |rows| ==> Encoded(rows[i].cols)
  }

  /** `SELECT * from items WHERE id = ?`: the row with that key, or `null`. */
  function ItemById(rows: seq<Row<ItemColumns>>, id: int): (r: Option<Item>)
    requires AllEncoded(rows)
    ensures r.None? <==> !HasKey(rows, id)
    ensures r.Some? ==> r.value.id == id && Row(id, Bind(r.value)) in rows
  {
    match Lookup(rows, id)
    case None => None
    case Some(cols) =>
      var i :| 0 <= i < |rows| && rows[i] == Row(id, cols);
      assert Encoded(cols);
      Some(ReadRow(Row(id, cols)))
  }

  // ---------------------------------------------------------------------

  class ItemDao {
    /** The `items` table. */
    var items: Table<ItemColumns>

    ghost predicate Valid()
      reads this
    {
      && WellFormed(items)
      && AllEncoded(items.rows)
    }

    constructor ()
      ensures Valid() && items == EmptyTable()
    {
      items := EmptyTable();
    }

    /** `INSERT OR IGNORE INTO items ... VALUES (nullif(?, 0), ...)`. */
    method Insert(item: Item)
      requires Valid()
      modifies this
      ensures Valid()
      ensures items == InsertOrIgnore(old(items), item.id, Bind(item))
    {
      InsertOrIgnoreSpec(items, item.id, Bind(item));
      var next := InsertOrIgnore(items, item.id, Bind(item));
      forall i | 0 <= i < |next.rows| ensures Encoded(next.rows[i].cols) {
        assert next.rows[i] in multiset(next.rows);
      }
      items := next;
    }

    /** `DELETE FROM items WHERE id = ?`, bound to the item's id. */
    method Delete(item: Item)
      requires Valid()
      modifies this
      ensures Valid()
      ensures items == DeleteRow(old(items), item.id)
    {
      DeleteRowSpec(items, item.id);
      RemoveKeyElements(items.rows, item.id);
      items := DeleteRow(items, item.id);
    }

    /** `UPDATE OR ABORT items SET id = ?, ... WHERE id = ?`, both bound to
        the item's id. */
    method Update(item: Item)
      requires Valid()
      modifies this
      ensures Valid()
      ensures items == UpdateRow(old(items), item.id, Bind(item))
    {
      UpdateRowSpec(items, item.id, Bind(item));
      items := UpdateRow(items, item.id, Bind(item));
    }

    /** `getAllItems()`: the cursor loop reading every row in turn. */
    method GetAllItems() returns (result: seq<Item>)
      ensures result == AllItems(items.rows)
    {
      result := [];
      var k := 0;
      while k < |items.rows|
        invariant 0 <= k <= |items.rows|
        invariant result == AllItems(items.rows[..k])
      {
        result := result + [ReadRow(items.rows[k])];
        k := k + 1;
      }
      assert items.rows[..k] == items.rows;
    }

    /** `getItem(id)`: `SELECT * from items WHERE id = ?`, the first row of
        the cursor, or `null` when it is empty. */
    function GetItem(id: int): (r: Option<Item>)
      requires Valid()
      reads this
      ensures r.None? <==> !HasKey(items.rows, id)
      ensures r.Some? ==> r.value.id == id && Row(id, Bind(r.value)) in items.rows
    {
      ItemById(items.rows, id)
    }

    /** `getItemClassi(c)`: `SELECT * FROM items WHERE clasificacion = ?
        ORDER BY horaCumplimiento`. The result holds exactly the items of
        class `c`, each as often as it is stored, sorted with NULL first. */
    method GetItemClassi(c: string) returns (result: seq<Item>)
      ensures SortedByHora(result)
      ensures multiset(result) == multiset(OfClass(items.rows, c))
    {
      result := [];
      var k := 0;
      while k < |items.rows|
        invariant 0 <= k <= |items.rows|
        invariant SortedByHora(result)
        invariant multiset(result) == multiset(OfClass(items.rows[..k], c))
      {
        var row := items.rows[k];
        ClassiStep(items.rows, c, k, result);
        if row.cols.clasificacion == c {
          result := InsertByHora(result, ReadRow(row));
        }
        k := k + 1;
      }
      assert items.rows[..k] == items.rows;
    }
  }

  // ---------------------------------------------------------------------
  // The instrumented tests of the DAO, for any items with distinct,
  // non-zero ids (the tests use ids 1 and 2) on a fresh table.

  /** The table after inserting `a` and then `b` into an empty table. */
  function TwoInserted(a: Item, b: Item): Table<ItemColumns> {
    InsertOrIgnore(InsertOrIgnore(EmptyTable(), a.id, Bind(a)), b.id, Bind(b))
  }

  /** Inserting an item and reading all items gives that item alone. */
  lemma InsertThenGetAll(item: Item)
    requires item.id != 0
    ensures AllItems(InsertOrIgnore(EmptyTable(), item.id, Bind(item)).rows) == [item]
  {
    assert InsertOrIgnore(EmptyTable(), item.id, Bind(item)).rows == [Row(item.id, Bind(item))];
  }

  /** The two rows land in key order, whichever was inserted first. */
  lemma TwoInsertedRows(a: Item, b: Item)
    requires a.id != 0 && b.id != 0 && a.id != b.id
    ensures TwoInserted(a, b).rows ==
      if a.id < b.id then [Row(a.id, Bind(a)), Row(b.id, Bind(b))]
      else [Row(b.id, Bind(b)), Row(a.id, Bind(a))]
  {
    var ra, rb := Row(a.id, Bind(a)), Row(b.id, Bind(b));
    var t1 := InsertOrIgnore(EmptyTable(), a.id, Bind(a));
    assert t1.rows == [ra];
    assert Lookup(t1.rows, b.id) == None;
    assert [ra][1..] == [];
    assert InsertSorted([ra], rb) == if a.id < b.id then [ra, rb] else [rb, ra];
  }

  /** Two inserted items are read back in key order, whichever came first. */
  lemma InsertTwoThenGetAll(a: Item, b: Item)
    requires a.id != 0 && b.id != 0 && a.id != b.id
    ensures AllItems(TwoInserted(a, b).rows) == if a.id < b.id then [a, b] else [b, a]
  {
    TwoInsertedRows(a, b);
  }

  /** A row inserted under a new id is found by that id, as written. */
  lemma {:induction false} InsertThenGetItem(t: Table<ItemColumns>, item: Item)
    requires WellFormed(t) && AllEncoded(t.rows)
    requires item.id != 0 && !HasKey(t.rows, item.id)
    ensures AllEncoded(InsertOrIgnore(t, item.id, Bind(item)).rows)
    ensures ItemById(InsertOrIgnore(t, item.id, Bind(item)).rows, item.id) == Some(item)
  {
    var next := InsertOrIgnore(t, item.id, Bind(item));
    InsertOrIgnoreSpec(t, item.id, Bind(item));
    forall i | 0 <= i < |next.rows| ensures Encoded(next.rows[i].cols) {
      assert next.rows[i] in multiset(next.rows);
    }
  }

  /** Deleting both inserted items leaves the table empty. */
  lemma DeleteBothThenEmpty(a: Item, b: Item)
    requires a.id != 0 && b.id != 0 && a.id != b.id
    ensures DeleteRow(DeleteRow(TwoInserted(a, b), a.id), b.id).rows == []
  {
    TwoInsertedRows(a, b);
    var rows := TwoInserted(a, b).rows;
    assert rows[1..][1..] == [];
    var rest := if a.id < b.id then rows[1..] else rows[..1];
    assert RemoveKey(rows, a.id) == rest by {
      if a.id < b.id {
        assert RemoveKey(rows[1..], a.id) == [rows[1]] + RemoveKey(rows[1..][1..], a.id);
      } else {
        assert RemoveKey(rows[1..], a.id) == [];
      }
    }
    assert rest[1..] == [] && rest[0].key == b.id;
    assert RemoveKey(rest, b.id) == RemoveKey(rest[1..], b.id);
    assert DeleteRow(DeleteRow(TwoInserted(a, b), a.id), b.id).rows == RemoveKey(rest, b.id);
  }

  /** Updating both inserted items under their ids and reading all items
      gives the updated copies, in key order. */
  lemma UpdateBothThenGetAll(a: Item, b: Item, a2: Item, b2: Item)
    requires a.id != 0 && b.id != 0 && a.id != b.id
    requires a2.id == a.id && b2.id == b.id
    ensures AllItems(UpdateRow(UpdateRow(TwoInserted(a, b), a2.id, Bind(a2)), b2.id, Bind(b2)).rows)
      == if a.id < b.id then [a2, b2] else [b2, a2]
  {
    TwoInsertedRows(a, b);
    var r2 := UpdateRow(UpdateRow(TwoInserted(a, b), a2.id, Bind(a2)), b2.id, Bind(b2)).rows;
    assert r2 == if a.id < b.id then [Row(a.id, Bind(a2)), Row(b.id, Bind(b2))]
      else [Row(b.id, Bind(b2)), Row(a.id, Bind(a2))];
  }
}
