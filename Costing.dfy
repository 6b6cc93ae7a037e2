/** `total_sales_and_cogs` of `db.py`: sales are the recorded costs of OUT
    movements; the cost of goods sold of a product is its weighted-average
    purchase price per kilogram (IN costs over IN kilograms, over the whole
    window) times the kilograms sold, and 0 when nothing was bought. ADJ
    movements never take part. */
module Costing {
  import opened Wrappers
  import opened Sums
  import opened Records
  import opened Aggregates

  /** The four `SUM(CASE WHEN ...)` columns of the per-product query. */
  function OutRevenue(m: Movement): real { if m.mtype == OUT then m.cost.GetOr(0.0) else 0.0 }
  function OutQty(m: Movement): real { if m.mtype == OUT then Abs(m.qtyKg) else 0.0 }
  function InCost(m: Movement): real { if m.mtype == IN then m.cost.GetOr(0.0) else 0.0 }
  function InQty(m: Movement): real { if m.mtype == IN then Abs(m.qtyKg) else 0.0 }

  datatype ProductTotals = ProductTotals(revenueOut: real, qtyOut: real, costIn: real, qtyIn: real)

  /** One row of `... GROUP BY p.id`. */
  function Totals(ms: seq<Movement>, pid: int): ProductTotals {
    ProductTotals(SumAt(ms, ProductOf, pid, OutRevenue), SumAt(ms, ProductOf, pid, OutQty),
                  SumAt(ms, ProductOf, pid, InCost), SumAt(ms, ProductOf, pid, InQty))
  }

  /** A product's cost of goods sold. */
  function Cogs(t: ProductTotals): real {
    if t.qtyIn > 0.0 then t.costIn / t.qtyIn * t.qtyOut else 0.0
  }

  /** The groups of `GROUP BY p.id`: each product of the window once, in order
      of first appearance. */
  function Groups(ms: seq<Movement>): (r: seq<int>)
    ensures NoDup(r)
    ensures forall p :: p in r <==> exists i :: 0 <= i < |ms| && ms[i].productId == p
  {
    if ms == [] then []
    else
      var g := Groups(ms[..|ms| - 1]);
      var p := ms[|ms| - 1].productId;
      assert forall i :: 0 <= i < |ms| - 1 ==> ms[..|ms| - 1][i] == ms[i];
      if p in g then g else g + [p]
  }

  /** Sales summed group by group. */
  function SalesOver(ms: seq<Movement>, ps: seq<int>): real {
    SumByKeys(ms, ProductOf, ps, OutRevenue)
  }

  /** COGS summed group by group. */
  function CogsOver(ms: seq<Movement>, ps: seq<int>): real {
    if ps == [] then 0.0 else CogsOver(ms, ps[..|ps| - 1]) + Cogs(Totals(ms, ps[|ps| - 1]))
  }

  datatype SalesAndCogs = SalesAndCogs(sales: real, cogs: real)

  /** What the query and the accumulation loop return for a window. */
  function SalesAndCogsOf(w: seq<Movement>): SalesAndCogs {
    SalesAndCogs(SalesOver(w, Groups(w)), CogsOver(w, Groups(w)))
  }

  /** The profit the movements page shows. */
  function Profit(r: SalesAndCogs): real {
    r.sales - r.cogs
  }

  /** Sales are the costs of the OUT movements of the window (a missing cost
      counts as 0), whatever the grouping. */
  lemma SalesAreOutCosts(w: seq<Movement>)
    ensures SalesAndCogsOf(w).sales == Sum(w, OutRevenue)
  {
    Regroup(w, ProductOf, Groups(w), OutRevenue);
  }

  /** The IN kilograms of a product are never negative, so "no purchase
      quantity" is exactly `qtyIn == 0`. */
  lemma QtyInNonNegative(ms: seq<Movement>, pid: int)
    ensures Totals(ms, pid).qtyIn >= 0.0 && Totals(ms, pid).qtyOut >= 0.0
  {
    SumAtNonNegative(ms, ProductOf, pid, InQty);
    SumAtNonNegative(ms, ProductOf, pid, OutQty);
  }

  /** A product never bought in the window has no cost of goods sold, however
      much of it was sold and at what price. */
  lemma CogsWithoutPurchases(ms: seq<Movement>, pid: int)
    requires forall i :: 0 <= i < |ms| && ms[i].productId == pid ==> ms[i].mtype != IN
    ensures Cogs(Totals(ms, pid)) == 0.0
  {
    SumAtZero(ms, ProductOf, pid, InQty);
  }

  lemma {:induction false} CogsOverZero(ms: seq<Movement>, ps: seq<int>)
    requires forall p :: p in ps ==> Cogs(Totals(ms, p)) == 0.0
    ensures CogsOver(ms, ps) == 0.0
  {
    if ps != [] {
      CogsOverZero(ms, ps[..|ps| - 1]);
    }
  }

  /** A window without any IN movement has zero COGS. */
  lemma NoPurchasesNoCogs(w: seq<Movement>)
    requires forall i :: 0 <= i < |w| ==> w[i].mtype != IN
    ensures SalesAndCogsOf(w).cogs == 0.0
  {
    forall p | p in Groups(w) ensures Cogs(Totals(w, p)) == 0.0 {
      CogsWithoutPurchases(w, p);
    }
    CogsOverZero(w, Groups(w));
  }

  lemma {:induction false} CogsOverAppend(ms: seq<Movement>, ps: seq<int>, qs: seq<int>)
    ensures CogsOver(ms, ps + qs) == CogsOver(ms, ps) + CogsOver(ms, qs)
  {
    if qs == [] {
      assert ps + qs == ps;
    } else {
      CogsOverAppend(ms, ps, qs[..|qs| - 1]);
      assert (ps + qs)[..|ps + qs| - 1] == ps + qs[..|qs| - 1];
    }
  }

  /** Taking one key out of a list takes out exactly its own term. */
  lemma CogsOverRemove(ms: seq<Movement>, qs: seq<int>, i: int)
    requires 0 <= i < |qs|
    ensures CogsOver(ms, qs) == CogsOver(ms, qs[..i] + qs[i + 1..]) + Cogs(Totals(ms, qs[i]))
  {
    assert qs == qs[..i] + [qs[i]] + qs[i + 1..];
    CogsOverAppend(ms, qs[..i] + [qs[i]], qs[i + 1..]);
    CogsOverAppend(ms, qs[..i], [qs[i]]);
    CogsOverAppend(ms, qs[..i], qs[i + 1..]);
    assert [qs[i]][..0] == [];
  }

  lemma NoDupRemove(qs: seq<int>, i: int)
    requires NoDup(qs) && 0 <= i < |qs|
    ensures NoDup(qs[..i] + qs[i + 1..])
    ensures forall q :: q in qs[..i] + qs[i + 1..] <==> q in qs && q != qs[i]
  {
    var r := qs[..i] + qs[i + 1..];
    assert forall k :: 0 <= k < |r| ==> r[k] == (if k < i then qs[k] else qs[k + 1]);
    forall q | q in qs && q != qs[i] ensures q in r {
      var k :| 0 <= k < |qs| && qs[k] == q;
      assert r[if k < i then k else k - 1] == q;
    }
  }

  /** The COGS total over two key lists agrees when the keys in only one of
      them contribute nothing. */
  lemma {:induction false} CogsOverKeys(ms: seq<Movement>, ps: seq<int>, qs: seq<int>)
    requires NoDup(ps) && NoDup(qs)
    requires forall p :: p in ps && p !in qs ==> Cogs(Totals(ms, p)) == 0.0
    requires forall q :: q in qs && q !in ps ==> Cogs(Totals(ms, q)) == 0.0
    ensures CogsOver(ms, ps) == CogsOver(ms, qs)
    decreases |ps|
  {
    if ps == [] {
      CogsOverZero(ms, qs);
    } else {
      var p := ps[|ps| - 1];
      var ps' := ps[..|ps| - 1];
      assert ps == ps' + [p];
      assert NoDup(ps');
      assert p !in ps';
      if p in qs {
        var i :| 0 <= i < |qs| && qs[i] == p;
        NoDupRemove(qs, i);
        CogsOverKeys(ms, ps', qs[..i] + qs[i + 1..]);
        CogsOverRemove(ms, qs, i);
      } else {
        CogsOverKeys(ms, ps', qs);
      }
    }
  }

  lemma {:induction false} CogsOverCongruent(a: seq<Movement>, b: seq<Movement>, ps: seq<int>)
    requires forall p :: p in ps ==> Totals(a, p) == Totals(b, p)
    ensures CogsOver(a, ps) == CogsOver(b, ps)
  {
    if ps != [] {
      CogsOverCongruent(a, b, ps[..|ps| - 1]);
    }
  }

  /** The window without its ADJ movements. */
  function WithoutAdj(ms: seq<Movement>): (r: seq<Movement>)
    ensures forall m :: m in r <==> m in ms && m.mtype != ADJ
  {
    if ms == [] then []
    else
      var rest := WithoutAdj(ms[..|ms| - 1]);
      var last := ms[|ms| - 1];
      assert ms == ms[..|ms| - 1] + [last];
      if last.mtype == ADJ then rest else rest + [last]
  }

  lemma {:induction false} SumAtWithoutAdj(ms: seq<Movement>, pid: int, f: Movement -> real)
    requires forall m: Movement :: m.mtype == ADJ ==> f(m) == 0.0
    ensures SumAt(WithoutAdj(ms), ProductOf, pid, f) == SumAt(ms, ProductOf, pid, f)
  {
    if ms != [] {
      var rest := WithoutAdj(ms[..|ms| - 1]);
      SumAtWithoutAdj(ms[..|ms| - 1], pid, f);
      assert (rest + [ms[|ms| - 1]])[..|rest|] == rest;
    }
  }

  lemma {:induction false} SumWithoutAdj(ms: seq<Movement>, f: Movement -> real)
    requires forall m: Movement :: m.mtype == ADJ ==> f(m) == 0.0
    ensures Sum(WithoutAdj(ms), f) == Sum(ms, f)
  {
    if ms != [] {
      var rest := WithoutAdj(ms[..|ms| - 1]);
      SumWithoutAdj(ms[..|ms| - 1], f);
      assert (rest + [ms[|ms| - 1]])[..|rest|] == rest;
    }
  }

  /** ADJ movements change neither sales nor COGS. */
  lemma AdjNeverContributes(w: seq<Movement>)
    ensures SalesAndCogsOf(WithoutAdj(w)) == SalesAndCogsOf(w)
  {
    var w' := WithoutAdj(w);
    SalesAreOutCosts(w);
    SalesAreOutCosts(w');
    SumWithoutAdj(w, OutRevenue);
    forall p ensures Totals(w', p) == Totals(w, p) {
      SumAtWithoutAdj(w, p, OutRevenue);
      SumAtWithoutAdj(w, p, OutQty);
      SumAtWithoutAdj(w, p, InCost);
      SumAtWithoutAdj(w, p, InQty);
    }
    CogsOverCongruent(w', w, Groups(w));
    forall p | p in Groups(w) && p !in Groups(w') ensures Cogs(Totals(w', p)) == 0.0 {
      CogsWithoutPurchases(w', p);
    }
    forall q | q in Groups(w') ensures q in Groups(w) {
      var i :| 0 <= i < |w'| && w'[i].productId == q;
      assert w'[i] in w;
    }
    CogsOverKeys(w', Groups(w), Groups(w'));
  }

  /** A worked case: 120 kg bought for 12000,
      then 30 kg sold for 4500. */
  function ExampleWindow(t1: string, t2: string): seq<Movement> {
    [Movement(1, 7, 1, IN, 120.0, Some(100.0), None, Some(12000.0), "", t1),
     Movement(2, 7, 1, OUT, -30.0, Some(150.0), None, Some(4500.0), "", t2)]
  }

  lemma ExampleStock(t1: string, t2: string)
    ensures Stock(ExampleWindow(t1, t2), 7, 1) == 90.0
  {
    var w := ExampleWindow(t1, t2);
    assert w[..1] == [w[0]];
    assert [w[0]][..0] == [];
    assert PairOf(w[0]) == (7, 1) && PairOf(w[1]) == (7, 1);
    assert SumAt([w[0]], PairOf, (7, 1), Qty) == 120.0;
    assert SumAt(w, PairOf, (7, 1), Qty) == SumAt([w[0]], PairOf, (7, 1), Qty) + -30.0;
  }

  lemma ExampleTotals(t1: string, t2: string)
    ensures Groups(ExampleWindow(t1, t2)) == [7]
    ensures Totals(ExampleWindow(t1, t2), 7) == ProductTotals(4500.0, 30.0, 12000.0, 120.0)
  {
    var w := ExampleWindow(t1, t2);
    assert w[..1] == [w[0]];
    assert [w[0]][..0] == [];
    assert Groups([w[0]]) == [7];
    assert ProductOf(w[0]) == 7 && ProductOf(w[1]) == 7;
    ExampleSum(w, OutRevenue);
    ExampleSum(w, OutQty);
    ExampleSum(w, InCost);
    ExampleSum(w, InQty);
  }

  lemma ExampleSum(w: seq<Movement>, f: Movement -> real)
    requires |w| == 2 && w[0].productId == 7 && w[1].productId == 7
    ensures SumAt(w, ProductOf, 7, f) == f(w[0]) + f(w[1])
  {
    assert w[..1] == [w[0]];
    assert [w[0]][..0] == [];
    assert ProductOf(w[0]) == 7 && ProductOf(w[1]) == 7;
    assert SumAt([w[0]], ProductOf, 7, f) == SumAt([], ProductOf, 7, f) + f(w[0]);
    assert SumAt(w, ProductOf, 7, f) == SumAt([w[0]], ProductOf, 7, f) + f(w[1]);
  }

  /** ... which leaves 90 kg in stock and gives sales 4500, COGS
      (12000 / 120) * 30 = 3000 and a profit of 1500. */
  lemma WorkedExample(t1: string, t2: string)
    ensures Stock(ExampleWindow(t1, t2), 7, 1) == 90.0
    ensures SalesAndCogsOf(ExampleWindow(t1, t2)) == SalesAndCogs(4500.0, 3000.0)
    ensures Profit(SalesAndCogsOf(ExampleWindow(t1, t2))) == 1500.0
  {
    var w := ExampleWindow(t1, t2);
    ExampleStock(t1, t2);
    ExampleTotals(t1, t2);
    assert [7][..0] == [];
    assert CogsOver(w, [7]) == 3000.0;
    assert SalesOver(w, [7]) == SumByKeys(w, ProductOf, [], OutRevenue) + SumAt(w, ProductOf, 7, OutRevenue);
  }
}
