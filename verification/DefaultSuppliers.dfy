/** The ordered default suppliers of catalog items and the supplier memory seeded from them, in the
    tables of one business. */
module DefaultSuppliers {
  import opened Lists
  import opened Numerals

  /** A row of catalog_item_default_suppliers. */
  datatype Row = Row(item: Uuid, supplier: Uuid, order: int)

  /** A row of supplier_item_defaults: what was last agreed with a supplier about an item. */
  datatype Memory = Memory(item: Uuid, supplier: Uuid, purchases: nat, lastPrice: real)

  // ----- writing -----

  /** The first n rows without those of an item. */
  function OtherRows(rows: seq<Row>, item: Uuid, n: nat): seq<Row>
    requires n <= |rows|
  {
    if n == 0 then [] else OtherRows(rows, item, n - 1) + (if rows[n - 1].item == item then [] else [rows[n - 1]])
  }

  /** One row for each of the first n suppliers, numbered from zero. */
  function NumberedRows(item: Uuid, suppliers: seq<Uuid>, n: nat): seq<Row>
    requires n <= |suppliers|
  {
    if n == 0 then [] else NumberedRows(item, suppliers, n - 1) + [Row(item, suppliers[n - 1], n - 1)]
  }

  function Replaced(rows: seq<Row>, item: Uuid, suppliers: seq<Uuid>): seq<Row> {
    OtherRows(rows, item, |rows|) + NumberedRows(item, suppliers, |suppliers|)
  }

  predicate Remembered(memory: seq<Memory>, item: Uuid, supplier: Uuid) {
    exists k :: 0 <= k < |memory| && memory[k].item == item && memory[k].supplier == supplier
  }

  /** Fresh memory rows for those of the first n suppliers that have none. */
  function SeededRows(memory: seq<Memory>, item: Uuid, suppliers: seq<Uuid>, n: nat): seq<Memory>
    requires n <= |suppliers|
  {
    if n == 0 then []
    else SeededRows(memory, item, suppliers, n - 1)
         + (if Remembered(memory, item, suppliers[n - 1]) then [] else [Memory(item, suppliers[n - 1], 0, 0.0)])
  }

  // ----- reading -----

  /** The order of the query: by item, then by number, then by supplier. */
  predicate Before(a: Row, b: Row) {
    a.item < b.item || (a.item == b.item && (a.order < b.order || (a.order == b.order && a.supplier < b.supplier)))
  }

  ghost predicate InOrder(rows: seq<Row>) {
    forall i, j :: 0 <= i < j < |rows| ==> Before(rows[i], rows[j])
  }

  /** What the query may return: the rows of the wanted items in the query's order.  Rows that differ are
      ordered, and the table holds no row twice. */
  ghost predicate QueryReturns(rows: seq<Row>, wanted: set<Uuid>, result: seq<Row>) {
    InOrder(result) && forall r :: r in result <==> r in rows && r.item in wanted
  }

  /** The suppliers of an item among the first n returned rows. */
  function Listed(result: seq<Row>, item: Uuid, n: nat): seq<Uuid>
    requires n <= |result|
  {
    if n == 0 then [] else Listed(result, item, n - 1) + (if result[n - 1].item == item then [result[n - 1].supplier] else [])
  }

  class DefaultsTable {
    var rows: seq<Row>
    var memory: seq<Memory>

    constructor ()
      ensures rows == [] && memory == []
    {
      rows, memory := [], [];
    }

    /** Stores the list without repetitions as the defaults of the item, and seeds the memory. */
    method SetDefaults(item: Uuid, suppliers: seq<Uuid>)
      modifies this
      ensures rows == Replaced(old(rows), item, Deduped(suppliers, |suppliers|))
      ensures memory == old(memory) + SeededRows(old(memory), item, Deduped(suppliers, |suppliers|), |Deduped(suppliers, |suppliers|)|)
    {
      var ids := Dedupe(suppliers);
      ReplaceRows(item, ids);
      SeedMemory(item, ids);
    }

    method ReplaceRows(item: Uuid, ids: seq<Uuid>)
      modifies this`rows
      ensures rows == Replaced(old(rows), item, ids)
    {
      var kept := [];
      for n := 0 to |rows|
        invariant rows == old(rows) && kept == OtherRows(rows, item, n)
      {
        if rows[n].item != item {
          kept := kept + [rows[n]];
        }
      }
      rows := kept;
      for order := 0 to |ids|
        invariant rows == kept + NumberedRows(item, ids, order)
      {
        rows := rows + [Row(item, ids[order], order)];
      }
    }

    method SeedMemory(item: Uuid, ids: seq<Uuid>)
      modifies this`memory
      ensures memory == old(memory) + SeededRows(old(memory), item, ids, |ids|)
    {
      ghost var before := memory;
      var existing := set k | 0 <= k < |memory| && memory[k].item == item && memory[k].supplier in ids :: memory[k].supplier;
      for n := 0 to |ids|
        invariant memory == before + SeededRows(before, item, ids, n)
        invariant existing == set k | 0 <= k < |before| && before[k].item == item && before[k].supplier in ids :: before[k].supplier
      {
        assert ids[n] in existing <==> Remembered(before, item, ids[n]);
        if ids[n] !in existing {
          memory := memory + [Memory(item, ids[n], 0, 0.0)];
        }
      }
    }
  }

  /** The lists of the first n returned rows, by item. */
  ghost predicate Groups(lists: map<Uuid, seq<Uuid>>, items: set<Uuid>, result: seq<Row>, n: nat)
    requires n <= |result|
  {
    lists.Keys == items && forall i :: i in items ==> lists[i] == Listed(result, i, n)
  }

  lemma GroupsGrow(lists: map<Uuid, seq<Uuid>>, items: set<Uuid>, result: seq<Row>, n: nat)
    requires n < |result| && result[n].item in items && Groups(lists, items, result, n)
    ensures var Row(item, supplier, _) := result[n]; Groups(lists[item := lists[item] + [supplier]], items, result, n + 1)
  {
  }

  /** Groups the returned rows by item. */
  method DefaultsOf(items: set<Uuid>, result: seq<Row>) returns (lists: map<Uuid, seq<Uuid>>)
    requires forall n :: 0 <= n < |result| ==> result[n].item in items
    ensures lists.Keys == items
    ensures forall i :: i in items ==> lists[i] == Listed(result, i, |result|)
  {
    lists := map i | i in items :: [];
    assert lists.Keys == items;
    for n := 0 to |result|
      invariant Groups(lists, items, result, n)
    {
      GroupsGrow(lists, items, result, n);
      var row := result[n];
      lists := lists[row.item := lists[row.item] + [row.supplier]];
    }
  }

  // ----- a list in order is determined by its rows -----

  lemma {:induction false} OrderDetermines(a: seq<Row>, b: seq<Row>)
    requires InOrder(a) && InOrder(b) && forall r :: r in a <==> r in b
    ensures a == b
  {
    EmptyTogether(a, b);
    EmptyTogether(b, a);
    if a != [] && b != [] {
      var m, n := |a| - 1, |b| - 1;
      LastIsGreatest(a, b);
      forall r
        ensures r in a[..m] <==> r in b[..n]
      {
        AllButLast(a, r);
        AllButLast(b, r);
      }
      OrderDetermines(a[..m], b[..n]);
      assert a == a[..m] + [a[m]] && b == b[..n] + [b[n]];
    }
  }

  lemma EmptyTogether(a: seq<Row>, b: seq<Row>)
    requires forall r :: r in b ==> r in a
    ensures b != [] ==> a != []
  {
    if |b| > 0 {
      var r := b[0];
      assert r in a;
    }
  }

  lemma LastIsGreatest(a: seq<Row>, b: seq<Row>)
    requires InOrder(a) && InOrder(b) && (forall r :: r in a <==> r in b) && a != [] && b != []
    ensures a[|a| - 1] == b[|b| - 1]
  {
    NothingAfterLast(b, a[|a| - 1]);
    NothingAfterLast(a, b[|b| - 1]);
  }

  lemma NothingAfterLast(a: seq<Row>, r: Row)
    requires InOrder(a) && r in a
    ensures r == a[|a| - 1] || Before(r, a[|a| - 1])
  {
  }

  lemma AllButLast(a: seq<Row>, r: Row)
    requires InOrder(a) && a != []
    ensures r in a[..|a| - 1] <==> r in a && r != a[|a| - 1]
  {
  }

  // ----- what a reader gets -----

  function ItemRows(result: seq<Row>, item: Uuid, n: nat): seq<Row>
    requires n <= |result|
  {
    if n == 0 then [] else ItemRows(result, item, n - 1) + (if result[n - 1].item == item then [result[n - 1]] else [])
  }

  lemma {:induction false} ItemRowsMembers(result: seq<Row>, item: Uuid, n: nat)
    requires n <= |result|
    ensures forall r :: r in ItemRows(result, item, n) <==> r.item == item && exists i :: 0 <= i < n && result[i] == r
  {
    if n > 0 {
      ItemRowsMembers(result, item, n - 1);
    }
  }

  lemma {:induction false} ItemRowsInOrder(result: seq<Row>, item: Uuid, n: nat)
    requires n <= |result| && InOrder(result)
    ensures InOrder(ItemRows(result, item, n))
  {
    if n > 0 {
      ItemRowsInOrder(result, item, n - 1);
      ItemRowsMembers(result, item, n - 1);
      var earlier := ItemRows(result, item, n - 1);
      forall k | 0 <= k < |earlier|
        ensures Before(earlier[k], result[n - 1])
      {
        assert earlier[k] in earlier;
        var i :| 0 <= i < n - 1 && result[i] == earlier[k];
      }
      InOrderAppend(earlier, result[n - 1]);
    }
  }

  lemma InOrderAppend(rows: seq<Row>, last: Row)
    requires InOrder(rows) && forall k :: 0 <= k < |rows| ==> Before(rows[k], last)
    ensures InOrder(rows + [last])
  {
  }

  lemma {:induction false} ListedAre(result: seq<Row>, item: Uuid, n: nat)
    requires n <= |result|
    ensures |Listed(result, item, n)| == |ItemRows(result, item, n)|
    ensures forall k :: 0 <= k < |ItemRows(result, item, n)| ==> Listed(result, item, n)[k] == ItemRows(result, item, n)[k].supplier
  {
    if n > 0 {
      ListedAre(result, item, n - 1);
    }
  }

  lemma {:induction false} ItemRowsAre(result: seq<Row>, item: Uuid, n: nat)
    requires n <= |result| && InOrder(result)
    ensures InOrder(ItemRows(result, item, n))
    ensures forall r :: r in ItemRows(result, item, n) <==> r.item == item && exists i :: 0 <= i < n && result[i] == r
    ensures |Listed(result, item, n)| == |ItemRows(result, item, n)|
    ensures forall k :: 0 <= k < |ItemRows(result, item, n)| ==> Listed(result, item, n)[k] == ItemRows(result, item, n)[k].supplier
  {
    ItemRowsInOrder(result, item, n);
    ItemRowsMembers(result, item, n);
    ListedAre(result, item, n);
  }

  lemma {:induction false} NumberedRowsAre(item: Uuid, suppliers: seq<Uuid>, n: nat)
    requires n <= |suppliers|
    ensures |NumberedRows(item, suppliers, n)| == n
    ensures forall k :: 0 <= k < n ==> NumberedRows(item, suppliers, n)[k] == Row(item, suppliers[k], k)
  {
    if n > 0 {
      NumberedRowsAre(item, suppliers, n - 1);
    }
  }

  lemma {:induction false} OtherRowsAre(rows: seq<Row>, item: Uuid, n: nat, r: Row)
    requires n <= |rows|
    ensures r in OtherRows(rows, item, n) <==> r.item != item && exists i :: 0 <= i < n && rows[i] == r
  {
    if n > 0 {
      OtherRowsAre(rows, item, n - 1, r);
    }
  }

  lemma {:induction false} ReplacedMembers(rows: seq<Row>, item: Uuid, suppliers: seq<Uuid>, r: Row)
    ensures r in Replaced(rows, item, suppliers)
            <==> if r.item == item then r in NumberedRows(item, suppliers, |suppliers|) else r in rows
  {
    OtherRowsAre(rows, item, |rows|, r);
    NumberedRowsAre(item, suppliers, |suppliers|);
  }

  /** Round trip: whatever was stored before, replacing the defaults of an item and reading them back gives
      the list, in its order. */
  lemma {:induction false} DefaultsRoundTrip(rows: seq<Row>, item: Uuid, suppliers: seq<Uuid>, wanted: set<Uuid>, result: seq<Row>)
    requires item in wanted && QueryReturns(Replaced(rows, item, suppliers), wanted, result)
    ensures Listed(result, item, |result|) == suppliers
  {
    var mine, target := ItemRows(result, item, |result|), NumberedRows(item, suppliers, |suppliers|);
    ItemRowsAre(result, item, |result|);
    NumberedRowsAre(item, suppliers, |suppliers|);
    forall r
      ensures r in mine <==> r in target
    {
      ReplacedMembers(rows, item, suppliers, r);
    }
    OrderDetermines(mine, target);
  }

  /** A list of defaults is read back as it was given if and only if it has no repetitions. */
  lemma {:induction false} ReadAsGivenIff(rows: seq<Row>, item: Uuid, suppliers: seq<Uuid>, wanted: set<Uuid>, result: seq<Row>)
    requires item in wanted && QueryReturns(Replaced(rows, item, Deduped(suppliers, |suppliers|)), wanted, result)
    ensures Listed(result, item, |result|) == suppliers <==> Distinct(suppliers)
  {
    DefaultsRoundTrip(rows, item, Deduped(suppliers, |suppliers|), wanted, result);
    DedupedDistinct(suppliers, |suppliers|);
    if Distinct(suppliers) {
      DedupedKeepsDistinct(suppliers, |suppliers|);
      assert suppliers[..|suppliers|] == suppliers;
    }
  }

  /** Every other item reads as before. */
  lemma {:induction false} OthersReadAsBefore(rows: seq<Row>, item: Uuid, suppliers: seq<Uuid>, wanted: set<Uuid>, before: seq<Row>, after: seq<Row>, other: Uuid)
    requires other != item && other in wanted
    requires QueryReturns(rows, wanted, before) && QueryReturns(Replaced(rows, item, suppliers), wanted, after)
    ensures Listed(after, other, |after|) == Listed(before, other, |before|)
  {
    var was, now := ItemRows(before, other, |before|), ItemRows(after, other, |after|);
    ItemRowsAre(before, other, |before|);
    ItemRowsAre(after, other, |after|);
    forall r
      ensures r in was <==> r in now
    {
      ReplacedMembers(rows, item, suppliers, r);
    }
    OrderDetermines(was, now);
  }

  // ----- uniqueness -----

  /** The table's constraint: no item lists a supplier twice. */
  ghost predicate PairsUnique(rows: seq<Row>) {
    forall a, b :: a in rows && b in rows && a.item == b.item && a.supplier == b.supplier ==> a == b
  }

  /** A list without repetitions never breaks the constraint. */
  lemma ReplaceKeepsPairsUnique(rows: seq<Row>, item: Uuid, suppliers: seq<Uuid>)
    requires PairsUnique(rows) && Distinct(suppliers)
    ensures PairsUnique(Replaced(rows, item, suppliers))
  {
    var after := Replaced(rows, item, suppliers);
    NumberedRowsAre(item, suppliers, |suppliers|);
    forall a, b | a in after && b in after && a.item == b.item && a.supplier == b.supplier
      ensures a == b
    {
      ReplacedMembers(rows, item, suppliers, a);
      ReplacedMembers(rows, item, suppliers, b);
      if a.item == item {
        var i :| 0 <= i < |suppliers| && a == Row(item, suppliers[i], i);
        var j :| 0 <= j < |suppliers| && b == Row(item, suppliers[j], j);
        if i != j {
          DifferentPlaces(suppliers, i, j);
        }
      }
    }
  }

  // ----- memory -----

  function MemoryCount(memory: seq<Memory>, item: Uuid, supplier: Uuid, n: nat): nat
    requires n <= |memory|
  {
    if n == 0 then 0
    else MemoryCount(memory, item, supplier, n - 1) + (if memory[n - 1].item == item && memory[n - 1].supplier == supplier then 1 else 0)
  }

  lemma {:induction false} MemoryCountConcat(a: seq<Memory>, b: seq<Memory>, item: Uuid, supplier: Uuid, n: nat)
    requires n <= |b|
    ensures MemoryCount(a + b, item, supplier, |a| + n) == MemoryCount(a, item, supplier, |a|) + MemoryCount(b, item, supplier, n)
  {
    if n == 0 {
      MemoryCountPrefix(a, b, item, supplier, |a|);
    } else {
      MemoryCountConcat(a, b, item, supplier, n - 1);
    }
  }

  lemma {:induction false} MemoryCountPrefix(a: seq<Memory>, b: seq<Memory>, item: Uuid, supplier: Uuid, n: nat)
    requires n <= |a|
    ensures MemoryCount(a + b, item, supplier, n) == MemoryCount(a, item, supplier, n)
  {
    if n > 0 {
      MemoryCountPrefix(a, b, item, supplier, n - 1);
    }
  }

  lemma {:induction false} RememberedIffCounted(memory: seq<Memory>, item: Uuid, supplier: Uuid, n: nat)
    requires n <= |memory|
    ensures MemoryCount(memory, item, supplier, n) > 0
            <==> exists k :: 0 <= k < n && memory[k].item == item && memory[k].supplier == supplier
  {
    if n > 0 {
      RememberedIffCounted(memory, item, supplier, n - 1);
    }
  }

  /** How many rows the seeding adds for a pair. */
  lemma {:induction false} SeededCount(memory: seq<Memory>, item: Uuid, suppliers: seq<Uuid>, n: nat, i: Uuid, s: Uuid)
    requires n <= |suppliers| && Distinct(suppliers)
    ensures var added := SeededRows(memory, item, suppliers, n);
            MemoryCount(added, i, s, |added|)
            == if i == item && !Remembered(memory, item, s) && Among(suppliers, s, n) then 1 else 0
  {
    if n > 0 {
      SeededCount(memory, item, suppliers, n - 1, i, s);
      var earlier, x := SeededRows(memory, item, suppliers, n - 1), suppliers[n - 1];
      MemoryCountConcat(earlier, [Memory(item, x, 0, 0.0)], i, s, 1);
      assert MemoryCount([Memory(item, x, 0, 0.0)], i, s, 0) == 0;
      forall k | 0 <= k < n - 1
        ensures suppliers[k] != x
      {
        assert Differ(suppliers, k, n - 1);
      }
      assert Among(suppliers, s, n) <==> Among(suppliers, s, n - 1) || x == s;
      assert SeededRows(memory, item, suppliers, n) == if Remembered(memory, item, x) then earlier else earlier + [Memory(item, x, 0, 0.0)];
    }
  }

  /** Seeding keeps every row as it is and leaves exactly one row for each listed supplier of the item that
      had at most one; pairs that are not listed keep their number of rows. */
  lemma {:induction false} SeedingLeavesOneRow(memory: seq<Memory>, item: Uuid, suppliers: seq<Uuid>, i: Uuid, s: Uuid)
    requires Distinct(suppliers)
    ensures var after := memory + SeededRows(memory, item, suppliers, |suppliers|);
            && memory <= after
            && MemoryCount(after, i, s, |after|)
               == if i == item && s in suppliers && MemoryCount(memory, i, s, |memory|) == 0 then 1 else MemoryCount(memory, i, s, |memory|)
  {
    var added := SeededRows(memory, item, suppliers, |suppliers|);
    SeededCount(memory, item, suppliers, |suppliers|, i, s);
    MemoryCountConcat(memory, added, i, s, |added|);
    RememberedIffCounted(memory, i, s, |memory|);
    assert Among(suppliers, s, |suppliers|) <==> s in suppliers;
  }

  /** A seeded row has nothing agreed yet. */
  lemma {:induction false} SeededRowsAreFresh(memory: seq<Memory>, item: Uuid, suppliers: seq<Uuid>, n: nat)
    requires n <= |suppliers|
    ensures forall m :: m in SeededRows(memory, item, suppliers, n) ==> m.item == item && m.supplier in suppliers && m.purchases == 0 && m.lastPrice == 0.0
  {
    if n > 0 {
      SeededRowsAreFresh(memory, item, suppliers, n - 1);
    }
  }

  /** The list that is stored: first occurrences, in their order. */
  lemma {:induction false} StoredListIsDistinct(suppliers: seq<Uuid>)
    ensures Distinct(Deduped(suppliers, |suppliers|))
    ensures forall s :: s in Deduped(suppliers, |suppliers|) <==> s in suppliers
  {
    DedupedDistinct(suppliers, |suppliers|);
    forall s: Uuid
      ensures s in Deduped(suppliers, |suppliers|) <==> s in suppliers
    {
      DedupedMembers(suppliers, |suppliers|, s);
    }
  }
}
