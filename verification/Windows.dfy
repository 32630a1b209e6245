/** Partitioned running sums over ledger rows.

    SQL computes `SUM(delta) OVER (PARTITION BY item ORDER BY at, id ROWS ... PRECEDING)` row by row
    on an unordered table.  Here that per-row sum is the definition of a balance, and the chain of an
    item (its rows sorted by time and id) is the independent reading of the same table that the
    theorems speak about. */
module Windows {
  import opened Numerals


  /** A ledger row; quantities are in thousandths.  `data` carries the columns that no sum looks at. */
  datatype Row<T> = Row(item: Uuid, at: int, id: Uuid, delta: int, before: int, after: int, data: T)

  /** The window order. */
  predicate Earlier<T, U>(a: Row<T>, b: Row<U>) {
    a.at < b.at || (a.at == b.at && a.id < b.id)
  }

  function OfItem<T>(rows: seq<Row<T>>, item: Uuid): seq<Row<T>> {
    if rows == [] then []
    else if rows[0].item == item then [rows[0]] + OfItem(rows[1..], item)
    else OfItem(rows[1..], item)
  }

  /** The sum of all deltas. */
  function Total<T>(rows: seq<Row<T>>): int {
    if rows == [] then 0 else rows[0].delta + Total(rows[1..])
  }

  /** The sum of the deltas of the rows of the same item that come before `r` in the window order. */
  function SumBefore<T, U>(rows: seq<Row<T>>, r: Row<U>): int {
    if rows == [] then 0
    else (if rows[0].item == r.item && Earlier(rows[0], r) then rows[0].delta else 0) + SumBefore(rows[1..], r)
  }

  function Insert<T>(r: Row<T>, rows: seq<Row<T>>): seq<Row<T>> {
    if rows == [] || Earlier(r, rows[0]) then [r] + rows
    else [rows[0]] + Insert(r, rows[1..])
  }

  function Sort<T>(rows: seq<Row<T>>): seq<Row<T>> {
    if rows == [] then [] else Insert(rows[0], Sort(rows[1..]))
  }

  /** The ledger of one item in window order. */
  function Chain<T>(rows: seq<Row<T>>, item: Uuid): seq<Row<T>> {
    Sort(OfItem(rows, item))
  }

  /** The quantity after the latest row of an item, zero when it has none. */
  function TailQty<T>(rows: seq<Row<T>>, item: Uuid): int {
    var chain := Chain(rows, item);
    if chain == [] then 0 else chain[|chain| - 1].after
  }

  /** A row with its running balance, on top of what the ledger says the item has. */
  function Balanced<T, U>(ledger: seq<Row<T>>, rows: seq<Row<U>>, r: Row<U>): Row<U> {
    var before := TailQty(ledger, r.item) + SumBefore(rows, r);
    r.(before := before, after := before + r.delta)
  }

  function BalanceEach<T, U>(ledger: seq<Row<T>>, rows: seq<Row<U>>, todo: seq<Row<U>>): (r: seq<Row<U>>)
    ensures |r| == |todo|
    ensures forall i :: 0 <= i < |r| ==> r[i] == Balanced(ledger, rows, todo[i])
  {
    if todo == [] then [] else [Balanced(ledger, rows, todo[0])] + BalanceEach(ledger, rows, todo[1..])
  }

  /** All rows with their running balances on top of `ledger`. */
  function WithBalances<T, U>(ledger: seq<Row<T>>, rows: seq<Row<U>>): seq<Row<U>> {
    BalanceEach(ledger, rows, rows)
  }

  /** An unbroken chain that starts at `q`: each row starts where the previous one ended and moves by
      its delta. */
  ghost predicate ConsistentFrom<T(!new)>(chain: seq<Row<T>>, q: int) {
    chain == [] || (chain[0].before == q && chain[0].after == q + chain[0].delta && ConsistentFrom(chain[1..], chain[0].after))
  }

  /** No two rows of the same item share an id, which makes the window order strict on every item. */
  ghost predicate DistinctIds<T(!new)>(rows: seq<Row<T>>) {
    rows == [] || (&& (forall r :: r in rows[1..] && r.item == rows[0].item ==> r.id != rows[0].id) && DistinctIds(rows[1..]))
  }

  ghost predicate StrictlySorted<T(!new)>(rows: seq<Row<T>>) {
    rows == [] || ((forall r :: r in rows[1..] ==> Earlier(rows[0], r)) && StrictlySorted(rows[1..]))
  }

  /** Same row up to the balances. */
  ghost predicate SameEvent<T(!new)>(a: Row<T>, b: Row<T>) {
    a.(before := 0, after := 0) == b.(before := 0, after := 0)
  }

  // ----- sorting -----

  lemma {:induction false} InsertMembers<T(!new)>(r: Row<T>, rows: seq<Row<T>>)
    ensures forall x :: x in Insert(r, rows) <==> x == r || x in rows
    ensures |Insert(r, rows)| == |rows| + 1
    ensures Total(Insert(r, rows)) == r.delta + Total(rows)
  {
    if !(rows == [] || Earlier(r, rows[0])) {
      InsertMembers(r, rows[1..]);
      assert rows == [rows[0]] + rows[1..];
    }
  }

  lemma {:induction false} SortMembers<T(!new)>(rows: seq<Row<T>>)
    ensures forall x :: x in Sort(rows) <==> x in rows
    ensures |Sort(rows)| == |rows|
    ensures Total(Sort(rows)) == Total(rows)
  {
    if rows != [] {
      SortMembers(rows[1..]);
      InsertMembers(rows[0], Sort(rows[1..]));
      assert rows == [rows[0]] + rows[1..];
    }
  }

  lemma {:induction false} InsertSorted<T(!new)>(r: Row<T>, rows: seq<Row<T>>)
    requires StrictlySorted(rows)
    requires forall x :: x in rows ==> x.id != r.id
    ensures StrictlySorted(Insert(r, rows))
  {
    if !(rows == [] || Earlier(r, rows[0])) {
      InsertSorted(r, rows[1..]);
      InsertMembers(r, rows[1..]);
      var rest := Insert(r, rows[1..]);
      assert Insert(r, rows) == [rows[0]] + rest;
      assert ([rows[0]] + rest)[1..] == rest;
      assert rows[0] in rows;
      assert forall x :: x in rest ==> Earlier(rows[0], x);
    } else {
      assert Insert(r, rows)[1..] == rows;
      forall x | x in rows
        ensures rows != [] && Earlier(r, x)
      {
        assert x == rows[0] || x in rows[1..];
      }
    }
  }

  lemma {:induction false} OfItemMembers<T(!new)>(rows: seq<Row<T>>, item: Uuid)
    ensures forall x :: x in OfItem(rows, item) <==> x in rows && x.item == item
  {
    if rows != [] {
      OfItemMembers(rows[1..], item);
      assert rows == [rows[0]] + rows[1..];
    }
  }

  lemma {:induction false} ChainMembers<T(!new)>(rows: seq<Row<T>>, item: Uuid)
    ensures forall x :: x in Chain(rows, item) <==> x in rows && x.item == item
    ensures Total(Chain(rows, item)) == Total(OfItem(rows, item))
    ensures |Chain(rows, item)| == |OfItem(rows, item)|
  {
    SortMembers(OfItem(rows, item));
    OfItemMembers(rows, item);
  }

  lemma ChainAt<T(!new)>(rows: seq<Row<T>>, item: Uuid)
    ensures forall k :: 0 <= k < |Chain(rows, item)| ==> Chain(rows, item)[k] in rows && Chain(rows, item)[k].item == item
  {
    ChainMembers(rows, item);
    assert forall x :: x in Chain(rows, item) ==> x in rows && x.item == item;
    MembersAt(Chain(rows, item), rows, item);
  }

  lemma MembersAt<T(!new)>(part: seq<Row<T>>, rows: seq<Row<T>>, item: Uuid)
    requires forall x :: x in part ==> x in rows && x.item == item
    ensures forall k :: 0 <= k < |part| ==> part[k] in rows && part[k].item == item
  {
  }

  lemma {:induction false} ChainSorted<T(!new)>(rows: seq<Row<T>>, item: Uuid)
    requires DistinctIds(rows)
    ensures StrictlySorted(Chain(rows, item))
  {
    if rows != [] {
      ChainSorted(rows[1..], item);
      if rows[0].item == item {
        var rest := OfItem(rows[1..], item);
        ChainMembers(rows[1..], item);
        forall x | x in Sort(rest)
          ensures x in rows[1..] && x.item == rows[0].item
        {
          assert x in Chain(rows[1..], item);
        }
        InsertSorted(rows[0], Sort(rest));
        assert OfItem(rows, item) == [rows[0]] + rest;
        assert ([rows[0]] + rest)[1..] == rest;
      }
    }
  }

  // ----- window sums against chains -----

  lemma {:induction false} SumBeforeInsert<T(!new), U(!new)>(x: Row<T>, rows: seq<Row<T>>, r: Row<U>)
    ensures SumBefore(Insert(x, rows), r) == (if x.item == r.item && Earlier(x, r) then x.delta else 0) + SumBefore(rows, r)
  {
    if rows == [] || Earlier(x, rows[0]) {
      assert ([x] + rows)[1..] == rows;
    } else {
      SumBeforeInsert(x, rows[1..], r);
      assert Insert(x, rows)[1..] == Insert(x, rows[1..]);
    }
  }

  /** The per-row window sum over the table is a sum over the sorted chain of the item. */
  lemma {:induction false} SumBeforeChain<T(!new), U(!new)>(rows: seq<Row<T>>, r: Row<U>)
    ensures SumBefore(rows, r) == SumBefore(Chain(rows, r.item), r)
  {
    if rows != [] {
      SumBeforeChain(rows[1..], r);
      if rows[0].item == r.item {
        var rest := OfItem(rows[1..], r.item);
        assert ([rows[0]] + rest)[1..] == rest;
        SumBeforeInsert(rows[0], Sort(rest), r);
      }
    }
  }

  lemma {:induction false} NoneBefore<T(!new), U(!new)>(rows: seq<Row<T>>, r: Row<U>)
    requires forall x :: x in rows ==> !Earlier(x, r)
    ensures SumBefore(rows, r) == 0
  {
    if rows != [] {
      NoneBefore(rows[1..], r);
    }
  }

  /** In a chain, the window sum at position `k` is the sum of the first `k` deltas. */
  lemma {:induction false} SumBeforeAt<T(!new)>(chain: seq<Row<T>>, k: nat)
    requires StrictlySorted(chain) && k < |chain|
    requires forall x :: x in chain ==> x.item == chain[k].item
    ensures SumBefore(chain, chain[k]) == Total(chain[..k])
  {
    if k == 0 {
      NoneBefore(chain[1..], chain[0]);
    } else {
      assert chain[k] == chain[1..][k - 1];
      SumBeforeAt(chain[1..], k - 1);
      assert chain[1..][..k - 1] == chain[..k][1..];
    }
  }

  lemma {:induction false} TotalAppend<T(!new)>(a: seq<Row<T>>, b: seq<Row<T>>)
    ensures Total(a + b) == Total(a) + Total(b)
  {
    if a == [] {
      assert a + b == b;
    } else {
      assert (a + b)[1..] == a[1..] + b;
      TotalAppend(a[1..], b);
    }
  }

  // ----- balances -----

  lemma {:induction false} InsertBalanced<T(!new), U(!new)>(ledger: seq<Row<T>>, rows: seq<Row<U>>, r: Row<U>, sorted: seq<Row<U>>)
    ensures Insert(Balanced(ledger, rows, r), BalanceEach(ledger, rows, sorted)) == BalanceEach(ledger, rows, Insert(r, sorted))
  {
    var b := BalanceEach(ledger, rows, sorted);
    if sorted == [] || Earlier(r, sorted[0]) {
      assert ([r] + sorted)[1..] == sorted;
    } else {
      InsertBalanced(ledger, rows, r, sorted[1..]);
      assert b[1..] == BalanceEach(ledger, rows, sorted[1..]);
      assert Insert(r, sorted)[1..] == Insert(r, sorted[1..]);
    }
  }

  /** Balances do not move rows: the chain of the balanced rows is the balanced chain. */
  lemma {:induction false} ChainOfBalances<T(!new), U(!new)>(ledger: seq<Row<T>>, rows: seq<Row<U>>, todo: seq<Row<U>>, item: Uuid)
    ensures Chain(BalanceEach(ledger, rows, todo), item) == BalanceEach(ledger, rows, Chain(todo, item))
  {
    if todo != [] {
      var b := BalanceEach(ledger, rows, todo);
      assert b[1..] == BalanceEach(ledger, rows, todo[1..]);
      ChainOfBalances(ledger, rows, todo[1..], item);
      if todo[0].item == item {
        var rest, rest' := OfItem(todo[1..], item), OfItem(b[1..], item);
        assert ([todo[0]] + rest)[1..] == rest && ([b[0]] + rest')[1..] == rest';
        InsertBalanced(ledger, rows, todo[0], Sort(rest));
      }
    }
  }

  /** The balance of the k-th row of a chain starts from the deltas before it. */
  lemma {:induction false} BalancedFirst<T(!new)>(rows: seq<Row<T>>, item: Uuid, k: nat)
    requires DistinctIds(rows) && k < |Chain(rows, item)|
    ensures var chain := Chain(rows, item);
            && chain[k].item == item
            && SumBefore(rows, chain[k]) == Total(chain[..k])
            && Total(chain[..k + 1]) == Total(chain[..k]) + chain[k].delta
  {
    var chain := Chain(rows, item);
    ChainSorted(rows, item);
    ChainMembers(rows, item);
    ChainAt(rows, item);
    SumBeforeChain(rows, chain[k]);
    SumBeforeAt(chain, k);
    assert chain[..k + 1] == chain[..k] + [chain[k]];
    TotalAppend(chain[..k], [chain[k]]);
  }

  lemma {:induction false} BalancedChainConsistent<T(!new), U(!new)>(ledger: seq<Row<T>>, rows: seq<Row<U>>, item: Uuid, k: nat)
    requires DistinctIds(rows) && k <= |Chain(rows, item)|
    ensures var chain := Chain(rows, item);
            ConsistentFrom(BalanceEach(ledger, rows, chain[k..]), TailQty(ledger, item) + Total(chain[..k]))
    decreases |Chain(rows, item)| - k
  {
    var chain := Chain(rows, item);
    if k < |chain| {
      BalancedFirst(rows, item, k);
      BalancedChainConsistent(ledger, rows, item, k + 1);
      var todo := chain[k..];
      assert todo[0] == chain[k] && todo[1..] == chain[k + 1..];
      assert BalanceEach(ledger, rows, todo)[1..] == BalanceEach(ledger, rows, chain[k + 1..]);
    }
  }

  /** Running balances yield a correct chain for every item: it starts at the quantity the ledger
      ends with, and every row starts where the previous one ended. */
  lemma {:induction false} RunningBalances<T(!new), U(!new)>(ledger: seq<Row<T>>, rows: seq<Row<U>>, item: Uuid)
    requires DistinctIds(rows)
    ensures ConsistentFrom(Chain(WithBalances(ledger, rows), item), TailQty(ledger, item))
  {
    ChainOfBalances(ledger, rows, rows, item);
    BalancedChainConsistent(ledger, rows, item, 0);
    assert Chain(rows, item)[0..] == Chain(rows, item) && Chain(rows, item)[..0] == [];
  }

  // ----- consistent chains -----

  /** In a consistent chain every balance is the starting quantity plus the deltas so far. */
  lemma {:induction false} ConsistentAt<T(!new)>(chain: seq<Row<T>>, q: int, k: nat)
    requires ConsistentFrom(chain, q) && k < |chain|
    ensures chain[k].before == q + Total(chain[..k])
    ensures chain[k].after == chain[k].before + chain[k].delta
  {
    if k > 0 {
      ConsistentAt(chain[1..], chain[0].after, k - 1);
      assert chain[1..][..k - 1] == chain[..k][1..];
    }
  }

  /** A consistent chain ends at its start plus the sum of all its deltas. */
  lemma {:induction false} ConsistentEnd<T(!new)>(chain: seq<Row<T>>, q: int)
    requires ConsistentFrom(chain, q) && chain != []
    ensures chain[|chain| - 1].after == q + Total(chain)
  {
    var k := |chain| - 1;
    ConsistentAt(chain, q, k);
    assert chain == chain[..k] + [chain[k]];
    TotalAppend(chain[..k], [chain[k]]);
  }

  /** Balances fixed row by row make a chain consistent. */
  lemma {:induction false} ConsistentIfAt<T(!new)>(chain: seq<Row<T>>, q: int)
    requires forall k :: 0 <= k < |chain| ==> chain[k].before == q + Total(chain[..k]) && chain[k].after == chain[k].before + chain[k].delta
    ensures ConsistentFrom(chain, q)
  {
    if chain != [] {
      forall k | 0 <= k < |chain[1..]|
        ensures chain[1..][k].before == chain[0].after + Total(chain[1..][..k])
        ensures chain[1..][k].after == chain[1..][k].before + chain[1..][k].delta
      {
        assert chain[1..][k] == chain[k + 1];
        assert chain[..k + 1][1..] == chain[1..][..k];
      }
      assert chain[0].before == q + Total(chain[..0]);
      ConsistentIfAt(chain[1..], chain[0].after);
    }
  }

  lemma {:induction false} ConsistentAppend<T(!new)>(a: seq<Row<T>>, b: seq<Row<T>>, q: int)
    requires ConsistentFrom(a, q) && ConsistentFrom(b, if a == [] then q else a[|a| - 1].after)
    ensures ConsistentFrom(a + b, q)
  {
    if a == [] {
      assert a + b == b;
    } else {
      assert (a + b)[1..] == a[1..] + b;
      ConsistentAppend(a[1..], b, a[0].after);
    }
  }
}
