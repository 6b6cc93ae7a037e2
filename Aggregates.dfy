/** Read-side computations over the movement log of `db.py`: stock as a sum
    of signed quantities, the filtered movement window of `list_movements`,
    and the weighted-average cost of goods sold of `total_sales_and_cogs`.
    Nothing here is stored: every figure is recomputed from the log. */
module Aggregates {
  import opened Wrappers
  import opened Text
  import opened Sums
  import opened Sorting
  import opened Records
  import opened Dates

  function Qty(m: Movement): real { m.qtyKg }
  function ProductOf(m: Movement): int { m.productId }
  function ShopOf(m: Movement): int { m.shopId }
  function PairOf(m: Movement): (int, int) { (m.productId, m.shopId) }

  // ---- stock ----

  /** `stock_kg`: `SUM(qty_kg)` over the movements of one (product, shop) pair. */
  function Stock(ms: seq<Movement>, pid: int, sid: int): real {
    SumAt(ms, PairOf, (pid, sid), Qty)
  }

  /** `total_stock_kg`: `SUM(qty_kg)` over every movement of the shop. */
  function TotalStock(ms: seq<Movement>, sid: int): real {
    SumAt(ms, ShopOf, sid, Qty)
  }

  /** The movements of one (product, shop) pair, in log order. */
  function MovementsOf(ms: seq<Movement>, pid: int, sid: int): (r: seq<Movement>)
    ensures forall m :: m in r <==> m in ms && m.productId == pid && m.shopId == sid
  {
    if ms == [] then []
    else
      var last := ms[|ms| - 1];
      var rest := MovementsOf(ms[..|ms| - 1], pid, sid);
      assert ms == ms[..|ms| - 1] + [last];
      if last.productId == pid && last.shopId == sid then rest + [last] else rest
  }

  /** Stock is the plain sum of the quantities of that pair's movements. */
  lemma {:induction false} StockIsSumOfQuantities(ms: seq<Movement>, pid: int, sid: int)
    ensures Stock(ms, pid, sid) == Sum(MovementsOf(ms, pid, sid), Qty)
  {
    if ms != [] {
      var last := ms[|ms| - 1];
      StockIsSumOfQuantities(ms[..|ms| - 1], pid, sid);
      if last.productId == pid && last.shopId == sid {
        var rest := MovementsOf(ms[..|ms| - 1], pid, sid);
        assert (rest + [last])[..|rest|] == rest;
      }
    }
  }

  /** With no movement for the pair, the stock is 0. */
  lemma {:induction false} StockWithoutMovements(ms: seq<Movement>, pid: int, sid: int)
    requires forall i :: 0 <= i < |ms| ==> ms[i].productId != pid || ms[i].shopId != sid
    ensures Stock(ms, pid, sid) == 0.0
  {
    if ms != [] {
      StockWithoutMovements(ms[..|ms| - 1], pid, sid);
    }
  }

  /** Stock does not depend on the order in which movements were recorded. */
  lemma StockOrderIndependent(a: seq<Movement>, b: seq<Movement>, pid: int, sid: int)
    requires multiset(a) == multiset(b)
    ensures Stock(a, pid, sid) == Stock(b, pid, sid)
  {
    SumAtPermutation(a, b, PairOf, (pid, sid), Qty);
  }

  /** Appending one movement moves exactly its own pair's stock, by its quantity. */
  lemma StockAfterAppend(ms: seq<Movement>, m: Movement, pid: int, sid: int)
    ensures Stock(ms + [m], pid, sid)
         == Stock(ms, pid, sid) + (if m.productId == pid && m.shopId == sid then m.qtyKg else 0.0)
  {
    assert (ms + [m])[..|ms|] == ms;
  }

  /** `Σ_{p ∈ pids} stock(p, sid)`. */
  function StockOverProducts(ms: seq<Movement>, pids: seq<int>, sid: int): real {
    if pids == [] then 0.0
    else StockOverProducts(ms, pids[..|pids| - 1], sid) + Stock(ms, pids[|pids| - 1], sid)
  }

  lemma {:induction false} StockOverProductsSnoc(ms: seq<Movement>, m: Movement, pids: seq<int>, sid: int)
    requires NoDup(pids)
    ensures StockOverProducts(ms + [m], pids, sid)
         == StockOverProducts(ms, pids, sid) + (if m.shopId == sid && m.productId in pids then m.qtyKg else 0.0)
  {
    if pids != [] {
      var pids' := pids[..|pids| - 1];
      assert NoDup(pids');
      StockOverProductsSnoc(ms, m, pids', sid);
      StockAfterAppend(ms, m, pids[|pids| - 1], sid);
      assert m.productId in pids <==> m.productId in pids' || m.productId == pids[|pids| - 1];
      assert pids[|pids| - 1] !in pids';
    }
  }

  lemma {:induction false} StockOverProductsOfNothing(pids: seq<int>, sid: int)
    ensures StockOverProducts([], pids, sid) == 0.0
  {
    if pids != [] {
      StockOverProductsOfNothing(pids[..|pids| - 1], sid);
    }
  }

  /** A shop's total is the sum of the stocks of every product the movements
      refer to — archived products included. */
  lemma {:induction false} TotalStockIsSumOverProducts(ms: seq<Movement>, pids: seq<int>, sid: int)
    requires NoDup(pids)
    requires forall i :: 0 <= i < |ms| ==> ms[i].productId in pids
    ensures TotalStock(ms, sid) == StockOverProducts(ms, pids, sid)
  {
    if ms == [] {
      StockOverProductsOfNothing(pids, sid);
    } else {
      var ms' := ms[..|ms| - 1];
      var m := ms[|ms| - 1];
      assert ms == ms' + [m];
      TotalStockIsSumOverProducts(ms', pids, sid);
      StockOverProductsSnoc(ms', m, pids, sid);
    }
  }

  // ---- list_movements ----

  /** Filters of `list_movements`; a missing or falsy value means "no filter". */
  datatype MovementFilter = MovementFilter(mtype: Option<string>, shopId: Option<int>, q: string,
                                           dateFrom: Option<string>, dateTo: Option<string>)

  /** `date(a) <= date(b)`; a comparison with NULL is not true. */
  predicate DateLe(a: string, b: string) {
    DateOf(a).Some? && DateOf(b).Some? && LexLe(DateOf(a).value, DateOf(b).value)
  }

  /** Python truthiness of the optional filter arguments. */
  predicate Given(s: Option<string>) {
    s.Some? && s.value != ""
  }

  /** The WHERE clause of `list_movements`, conjunctive, for a row joined to
      its product. A type filter outside IN/OUT/ADJ and a shop id 0 are ignored. */
  predicate Selects(f: MovementFilter, m: Movement, p: Product) {
    && (f.mtype.Some? && ParseMType(f.mtype.value).Some? ==> m.mtype == ParseMType(f.mtype.value).value)
    && (f.shopId.Some? && f.shopId.value != 0 ==> m.shopId == f.shopId.value)
    && (f.q != "" ==> MatchesQuery(p, f.q))
    && (Given(f.dateFrom) ==> DateLe(f.dateFrom.value, m.createdAt))
    && (Given(f.dateTo) ==> DateLe(m.createdAt, f.dateTo.value))
  }

  /** The row survives both inner joins and the WHERE clause. */
  predicate InWindow(products: seq<Product>, shops: seq<Shop>, f: MovementFilter, m: Movement) {
    FindProduct(products, m.productId).Some? && FindShop(shops, m.shopId).Some?
    && Selects(f, m, FindProduct(products, m.productId).value)
  }

  /** The movements selected by the joins and filters, in log order. */
  function Window(ms: seq<Movement>, products: seq<Product>, shops: seq<Shop>, f: MovementFilter): (r: seq<Movement>)
    ensures forall m :: multiset(r)[m] == if InWindow(products, shops, f, m) then multiset(ms)[m] else 0
    ensures forall i :: 0 <= i < |r| ==> InWindow(products, shops, f, r[i])
  {
    if ms == [] then []
    else
      var last := ms[|ms| - 1];
      assert ms == ms[..|ms| - 1] + [last];
      var rest := Window(ms[..|ms| - 1], products, shops, f);
      if InWindow(products, shops, f, last) then rest + [last] else rest
  }

  /** A `list_movements` row: the movement with its product's and shop's labels. */
  datatype MovementRow = MovementRow(movement: Movement, productLibelle: string, poidsSacKg: real,
                                     shopLibelle: string)

  function JoinRows(w: seq<Movement>, products: seq<Product>, shops: seq<Shop>): (r: seq<MovementRow>)
    requires forall i :: 0 <= i < |w| ==> FindProduct(products, w[i].productId).Some? && FindShop(shops, w[i].shopId).Some?
    ensures |r| == |w| && forall i :: 0 <= i < |w| ==> r[i].movement == w[i]
  {
    seq(|w|, i requires 0 <= i < |w| =>
      var p := FindProduct(products, w[i].productId).value;
      MovementRow(w[i], p.libelle, p.poidsSacKg, FindShop(shops, w[i].shopId).value.libelle))
  }

  /** `ORDER BY created_at DESC, id DESC`. */
  function RowBefore(a: MovementRow, b: MovementRow): bool {
    if a.movement.createdAt == b.movement.createdAt then a.movement.id >= b.movement.id
    else LexLe(b.movement.createdAt, a.movement.createdAt)
  }

  lemma RowOrderTotal()
    ensures Total(RowBefore)
  {
    forall a: MovementRow, b: MovementRow ensures RowBefore(a, b) || RowBefore(b, a) {
      LexLeTotal(a.movement.createdAt, b.movement.createdAt);
    }
  }

  lemma RowOrderTransitive()
    ensures Transitive(RowBefore)
  {
    forall a: MovementRow, b: MovementRow, c: MovementRow | RowBefore(a, b) && RowBefore(b, c)
      ensures RowBefore(a, c)
    {
      var x, y, z := a.movement.createdAt, b.movement.createdAt, c.movement.createdAt;
      if x != y && y != z {
        LexLeTransitive(z, y, x);
        if x == z {
          LexLeAntisymmetric(x, y);
        }
      }
    }
  }

  function Movements(rows: seq<MovementRow>): (r: seq<Movement>)
    ensures |r| == |rows| && forall i :: 0 <= i < |rows| ==> r[i] == rows[i].movement
  {
    seq(|rows|, i requires 0 <= i < |rows| => rows[i].movement)
  }

  lemma MovementsAppend(a: seq<MovementRow>, b: seq<MovementRow>)
    ensures Movements(a + b) == Movements(a) + Movements(b)
  {
  }

  lemma {:induction false} MovementsOfPermutation(a: seq<MovementRow>, b: seq<MovementRow>)
    requires multiset(a) == multiset(b)
    ensures multiset(Movements(a)) == multiset(Movements(b))
    decreases |a|
  {
    if a != [] {
      var x := a[|a| - 1];
      var a' := a[..|a| - 1];
      assert a == a' + [x];
      assert x in multiset(b);
      var i :| 0 <= i < |b| && b[i] == x;
      var b1, b2 := b[..i], b[i + 1..];
      assert b == b1 + [x] + b2;
      RemoveOne(a', x, b1, b2);
      MovementsOfPermutation(a', b1 + b2);
      MovementsSplit(a', x, b1, b2);
    } else {
      assert |b| == |multiset(b)| == 0;
    }
  }

  lemma RemoveOne(a': seq<MovementRow>, x: MovementRow, b1: seq<MovementRow>, b2: seq<MovementRow>)
    requires multiset(a' + [x]) == multiset(b1 + [x] + b2)
    ensures multiset(a') == multiset(b1 + b2)
  {
    calc {
      multiset(a');
      multiset(a' + [x]) - multiset{x};
      multiset(b1 + [x] + b2) - multiset{x};
      multiset(b1 + b2);
    }
  }

  lemma MovementsSplit(a': seq<MovementRow>, x: MovementRow, b1: seq<MovementRow>, b2: seq<MovementRow>)
    requires multiset(Movements(a')) == multiset(Movements(b1 + b2))
    ensures multiset(Movements(a' + [x])) == multiset(Movements(b1 + [x] + b2))
  {
    MovementsAppend(a', [x]);
    MovementsAppend(b1 + [x], b2);
    MovementsAppend(b1, [x]);
    MovementsAppend(b1, b2);
    assert Movements([x]) == [x.movement];
  }

  /** `list_movements`: exactly the movements of the window, each joined to
      its labels, most recent first and higher id first on equal timestamps. */
  function ListMovements(ms: seq<Movement>, products: seq<Product>, shops: seq<Shop>, f: MovementFilter): (r: seq<MovementRow>)
    ensures multiset(Movements(r)) == multiset(Window(ms, products, shops, f))
    ensures forall i :: 0 <= i < |r| ==> InWindow(products, shops, f, r[i].movement)
    ensures Sorted(r, RowBefore)
  {
    var w := Window(ms, products, shops, f);
    var rows := JoinRows(w, products, shops);
    RowOrderTotal();
    var r := SortBy(rows, RowBefore);
    MovementsOfPermutation(r, rows);
    assert Movements(rows) == w;
    PermutedRowsInWindow(r, rows, products, shops, f);
    r
  }

  lemma PermutedRowsInWindow(r: seq<MovementRow>, rows: seq<MovementRow>, products: seq<Product>, shops: seq<Shop>,
                             f: MovementFilter)
    requires multiset(r) == multiset(rows)
    requires forall k :: 0 <= k < |rows| ==> InWindow(products, shops, f, rows[k].movement)
    ensures forall i :: 0 <= i < |r| ==> InWindow(products, shops, f, r[i].movement)
  {
    forall i | 0 <= i < |r| ensures InWindow(products, shops, f, r[i].movement) {
      assert r[i] in multiset(rows);
      var k :| 0 <= k < |rows| && rows[k] == r[i];
    }
  }

  /** Any two listed movements appear newest first: the earlier one has the
      later timestamp, or the same timestamp and the larger id. */
  lemma ListMovementsOrdered(ms: seq<Movement>, products: seq<Product>, shops: seq<Shop>, f: MovementFilter,
                             i: nat, j: nat)
    requires i < j < |ListMovements(ms, products, shops, f)|
    ensures var a, b := ListMovements(ms, products, shops, f)[i].movement, ListMovements(ms, products, shops, f)[j].movement;
            if a.createdAt == b.createdAt then a.id >= b.id else LexLe(b.createdAt, a.createdAt)
  {
    RowOrderTransitive();
    SortedPairwise(ListMovements(ms, products, shops, f), RowBefore, i, j);
  }

  /** The date bounds are inclusive on the date part: with both bounds on
      January 2024, the last second of January is kept and the first second
      of February is not. */
  lemma DateBoundsExample(m: Movement, p: Product)
    requires m.createdAt == "2024-01-31T23:59:59"
    ensures Selects(MovementFilter(None, None, "", Some("2024-01-01"), Some("2024-01-31")), m, p)
    ensures !Selects(MovementFilter(None, None, "", Some("2024-01-01"), Some("2024-01-31")),
                     m.(createdAt := "2024-02-01T00:00:00"), p)
  {
    DateFromExample();
    DateToExample();
    DateToExcludes();
  }

  /** A bound on the first day keeps a timestamp later in the month. */
  lemma DateFromExample()
    ensures DateLe("2024-01-01", "2024-01-31T23:59:59")
  {
    JanuaryTexts();
    DateOfDate(Ymd(2024, 1, 1));
    DateOfTimestamp(Ymd(2024, 1, 31), 23, 59, 59);
    FirstBeforeLast();
  }

  lemma FirstBeforeLast()
    ensures LexLe("2024-01-01", "2024-01-31")
  {
    var a, b := "2024-01-01", "2024-01-31";
    assert a[1..][1..][1..][1..][1..][1..][1..][1..][0] < b[1..][1..][1..][1..][1..][1..][1..][1..][0];
  }

  /** A bound on the last day keeps that day's last second ... */
  lemma DateToExample()
    ensures DateLe("2024-01-31T23:59:59", "2024-01-31")
  {
    JanuaryTexts();
    DateOfDate(Ymd(2024, 1, 31));
    DateOfTimestamp(Ymd(2024, 1, 31), 23, 59, 59);
    LexLeReflexive("2024-01-31");
  }

  /** ... and drops the next day's first second. */
  lemma DateToExcludes()
    ensures !DateLe("2024-02-01T00:00:00", "2024-01-31")
  {
    JanuaryTexts();
    DateOfDate(Ymd(2024, 1, 31));
    DateOfTimestamp(Ymd(2024, 2, 1), 0, 0, 0);
    assert !LexLe("2024-02-01", "2024-01-31") by {
      var a, b := "2024-02-01", "2024-01-31";
      assert a[1..][1..][1..][1..][1..][1..][0] > b[1..][1..][1..][1..][1..][1..][0];
    }
  }

  /** The texts the examples use, as `DateText` and `IsoText` write them. */
  lemma JanuaryTexts()
    ensures DateText(Ymd(2024, 1, 1)) == "2024-01-01" && DateText(Ymd(2024, 1, 31)) == "2024-01-31"
    ensures DateText(Ymd(2024, 2, 1)) == "2024-02-01"
    ensures IsoText(Ymd(2024, 1, 31), 23, 59, 59) == "2024-01-31T23:59:59"
    ensures IsoText(Ymd(2024, 2, 1), 0, 0, 0) == "2024-02-01T00:00:00"
  {
    assert Pad2(20) == "20" && Pad2(24) == "24" && Pad2(1) == "01" && Pad2(2) == "02" && Pad2(31) == "31";
    assert Pad2(23) == "23" && Pad2(59) == "59" && Pad2(0) == "00";
    assert Pad4(2024) == "2024";
  }

  lemma {:induction false} LexLeReflexive(s: string)
    ensures LexLe(s, s)
  {
    if s != [] {
      LexLeReflexive(s[1..]);
    }
  }
}
