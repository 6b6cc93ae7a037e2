/** The `Database` class of `db.py`: the three tables held as sequences of
    rows, with SQLite's AUTOINCREMENT high-water marks, the constraints of the
    schema enforced on every write, and the read queries built on the pure
    definitions of `Records`, `Aggregates` and `Costing`. */
module Ledger {
  import opened Wrappers
  import opened Sums
  import opened Records
  import opened Aggregates
  import opened Costing

  /** A row of `low_stock_products`: the product with its current stock. */
  datatype LowStockItem = LowStockItem(product: Product, stockKg: real)

  /** `all_stocks` over a product listing: each product paired with its stock. */
  function StockRows(listed: seq<Product>, ms: seq<Movement>, sid: int): (r: seq<(Product, real)>)
    ensures |r| == |listed|
    ensures forall i :: 0 <= i < |r| ==> r[i].0 == listed[i]
  {
    seq(|listed|, i requires 0 <= i < |listed| => (listed[i], Stock(ms, listed[i].id, sid)))
  }

  /** The products of a listing at or below their alert threshold, in listing
      order, each with its stock. */
  function LowStockOf(listed: seq<Product>, ms: seq<Movement>, sid: int): (r: seq<LowStockItem>)
    ensures forall x :: x in r <==> x.product in listed && x.stockKg == Stock(ms, x.product.id, sid)
                                     && x.stockKg <= x.product.seuilKg
    ensures |r| <= |listed|
  {
    if listed == [] then []
    else
      var p := listed[|listed| - 1];
      var rest := LowStockOf(listed[..|listed| - 1], ms, sid);
      assert listed == listed[..|listed| - 1] + [p];
      var q := Stock(ms, p.id, sid);
      if q <= p.seuilKg then rest + [LowStockItem(p, q)] else rest
  }

  lemma StockRowsStep(listed: seq<Product>, ms: seq<Movement>, sid: int, i: int)
    requires 0 <= i < |listed|
    ensures StockRows(listed[..i + 1], ms, sid) == StockRows(listed[..i], ms, sid) + [(listed[i], Stock(ms, listed[i].id, sid))]
  {
  }

  lemma LowStockStep(listed: seq<Product>, ms: seq<Movement>, sid: int, i: int)
    requires 0 <= i < |listed|
    ensures LowStockOf(listed[..i + 1], ms, sid)
         == LowStockOf(listed[..i], ms, sid)
            + (if Stock(ms, listed[i].id, sid) <= listed[i].seuilKg
               then [LowStockItem(listed[i], Stock(ms, listed[i].id, sid))] else [])
  {
    assert listed[..i + 1][..i] == listed[..i];
  }

  lemma TotalsStep(w: seq<Movement>, groups: seq<int>, i: int)
    requires 0 <= i < |groups|
    ensures SalesOver(w, groups[..i + 1]) == SalesOver(w, groups[..i]) + Totals(w, groups[i]).revenueOut
    ensures CogsOver(w, groups[..i + 1]) == CogsOver(w, groups[..i]) + Cogs(Totals(w, groups[i]))
  {
    assert groups[..i + 1][..i] == groups[..i];
  }

  /** The accumulation loop of `total_sales_and_cogs` over the per-product
      rows of a window: sales always, COGS only for products bought in it. */
  method AccumulateTotals(w: seq<Movement>) returns (sales: real, cogs: real)
    ensures SalesAndCogs(sales, cogs) == SalesAndCogsOf(w)
    ensures sales == Sum(w, OutRevenue)
  {
    var groups := Groups(w);
    sales, cogs := 0.0, 0.0;
    var i := 0;
    while i < |groups|
      invariant 0 <= i <= |groups|
      invariant sales == SalesOver(w, groups[..i]) && cogs == CogsOver(w, groups[..i])
    {
      TotalsStep(w, groups, i);
      var t := Totals(w, groups[i]);
      sales := sales + t.revenueOut;
      if t.qtyIn > 0.0 {
        var avg := t.costIn / t.qtyIn;
        cogs := cogs + avg * t.qtyOut;
      }
      i := i + 1;
    }
    assert groups[..i] == groups;
    SalesAreOutCosts(w);
  }

  /** The identifiers of a product table, in table order. */
  function ProductIds(products: seq<Product>): (r: seq<int>)
    ensures |r| == |products| && forall i :: 0 <= i < |r| ==> r[i] == products[i].id
  {
    seq(|products|, i requires 0 <= i < |products| => products[i].id)
  }

  // ---- the schema's constraints, on table values ----

  /** Shop ids unique, positive and at most the high-water mark; labels unique. */
  predicate ShopsOk(shops: seq<Shop>, hw: int) {
    UniqueShopIds(shops) && UniqueShopLabels(shops) && forall i :: 0 <= i < |shops| ==> 0 < shops[i].id <= hw
  }

  /** Product ids unique, positive and at most the high-water mark; SKUs unique. */
  predicate ProductsOk(products: seq<Product>, hw: int) {
    UniqueProductIds(products) && UniqueSkus(products) && forall i :: 0 <= i < |products| ==> 0 < products[i].id <= hw
  }

  predicate MovementsOk(ms: seq<Movement>, hw: int) {
    (forall i, j :: 0 <= i < j < |ms| ==> ms[i].id != ms[j].id) && forall i :: 0 <= i < |ms| ==> 0 < ms[i].id <= hw
  }

  /** Both foreign keys of every movement resolve. */
  predicate LinksOk(ms: seq<Movement>, products: seq<Product>, shops: seq<Shop>) {
    forall i :: 0 <= i < |ms| ==> FindProduct(products, ms[i].productId).Some? && FindShop(shops, ms[i].shopId).Some?
  }

  function Max(a: int, b: int): int { if a < b then b else a }

  /** Inserting a shop whose id and label are both new keeps the shop table
      well formed, the high-water mark rising to the new id. */
  lemma ShopInsertOk(shops: seq<Shop>, hw: int, s: Shop)
    requires ShopsOk(shops, hw) && 0 < s.id
    requires FindShop(shops, s.id).None? && !LabelTaken(shops, s.libelle)
    ensures ShopsOk(shops + [s], Max(hw, s.id))
  {
    assert forall i :: 0 <= i < |shops| ==> shops[i].libelle != s.libelle;
  }

  /** Foreign keys keep resolving when a shop or a product is added. */
  lemma LinksAfterInsert(ms: seq<Movement>, products: seq<Product>, shops: seq<Shop>,
                         moreProducts: seq<Product>, moreShops: seq<Shop>)
    requires LinksOk(ms, products, shops)
    ensures LinksOk(ms, products + moreProducts, shops + moreShops)
  {
    forall i | 0 <= i < |ms|
      ensures FindProduct(products + moreProducts, ms[i].productId).Some?
      ensures FindShop(shops + moreShops, ms[i].shopId).Some?
    {
      var p := FindProduct(products, ms[i].productId).value;
      var k :| 0 <= k < |products| && products[k] == p;
      assert (products + moreProducts)[k] == p;
      var s := FindShop(shops, ms[i].shopId).value;
      var j :| 0 <= j < |shops| && shops[j] == s;
      assert (shops + moreShops)[j] == s;
    }
  }

  /** Renaming keeps every id in place, so keys and links are untouched;
      the label stays unique when no other shop holds it. */
  lemma RenameOk(ms: seq<Movement>, products: seq<Product>, shops: seq<Shop>, hw: int, id: int, libelle: string)
    requires ShopsOk(shops, hw) && LinksOk(ms, products, shops)
    requires FindShop(shops, id).Some? ==> !LabelTakenByOther(shops, id, libelle)
    ensures ShopsOk(RenamedShops(shops, id, libelle), hw)
    ensures LinksOk(ms, products, RenamedShops(shops, id, libelle))
  {
    var r := RenamedShops(shops, id, libelle);
    forall i, j | 0 <= i < j < |r| ensures r[i].libelle != r[j].libelle {
      if shops[i].id == id {
        assert FindShop(shops, id).Some?;
        assert shops[j].libelle != libelle;
      } else if shops[j].id == id {
        assert FindShop(shops, id).Some?;
        assert shops[i].libelle != libelle;
      }
    }
    forall i | 0 <= i < |ms| ensures FindShop(r, ms[i].shopId).Some? {
      var s := FindShop(shops, ms[i].shopId).value;
      var k :| 0 <= k < |shops| && shops[k] == s;
      assert r[k].id == s.id;
    }
  }

  /** Deleting a shop no movement refers to keeps the table well formed and
      every link resolving. */
  lemma {:induction false} WithoutShopOk(shops: seq<Shop>, hw: int, id: int)
    requires ShopsOk(shops, hw)
    ensures ShopsOk(WithoutShop(shops, id), hw)
  {
    if shops != [] {
      var last := shops[|shops| - 1];
      var init := shops[..|shops| - 1];
      assert forall k :: 0 <= k < |init| ==> init[k] == shops[k];
      WithoutShopOk(init, hw, id);
      if last.id != id {
        var r := WithoutShop(init, id);
        forall i | 0 <= i < |r| ensures r[i].id != last.id && r[i].libelle != last.libelle {
          var k :| 0 <= k < |init| && init[k] == r[i];
        }
        SnocShopsOk(r, hw, last);
      }
    }
  }

  lemma SnocShopsOk(r: seq<Shop>, hw: int, last: Shop)
    requires ShopsOk(r, hw) && 0 < last.id <= hw
    requires forall i :: 0 <= i < |r| ==> r[i].id != last.id && r[i].libelle != last.libelle
    ensures ShopsOk(r + [last], hw)
  {
    var t := r + [last];
    assert forall k :: 0 <= k < |r| ==> t[k] == r[k];
  }

  lemma LinksAfterDelete(ms: seq<Movement>, products: seq<Product>, shops: seq<Shop>, id: int)
    requires LinksOk(ms, products, shops)
    requires forall i :: 0 <= i < |ms| ==> ms[i].shopId != id
    ensures LinksOk(ms, products, WithoutShop(shops, id))
  {
    forall i | 0 <= i < |ms| ensures FindShop(WithoutShop(shops, id), ms[i].shopId).Some? {
      var s := FindShop(shops, ms[i].shopId).value;
      assert s in WithoutShop(shops, id);
    }
  }

  /** A product with a new id and a SKU no other product holds keeps the
      product table well formed. */
  lemma ProductInsertOk(products: seq<Product>, hw: int, p: Product)
    requires ProductsOk(products, hw) && 0 < p.id && hw < p.id
    requires p.sku.Some? ==> !SkuTakenByOther(products, None, p.sku.value)
    ensures ProductsOk(products + [p], p.id)
  {
    assert forall i :: 0 <= i < |products| && products[i].sku.Some? ==> products[i].sku != p.sku;
  }

  /** Rewriting the row `id` with a row of the same id whose SKU no other
      product holds keeps the table well formed and every link resolving. */
  lemma ReplaceOk(ms: seq<Movement>, products: seq<Product>, shops: seq<Shop>, hw: int, row: Product)
    requires ProductsOk(products, hw) && LinksOk(ms, products, shops)
    requires row.sku.Some? ==> !SkuTakenByOther(products, Some(row.id), row.sku.value)
    ensures ProductsOk(ReplacedProduct(products, row.id, row), hw)
    ensures LinksOk(ms, ReplacedProduct(products, row.id, row), shops)
  {
    var r := ReplacedProduct(products, row.id, row);
    assert forall i :: 0 <= i < |r| ==> r[i].id == products[i].id;
    forall i | 0 <= i < |ms| ensures FindProduct(r, ms[i].productId).Some? {
      var p := FindProduct(products, ms[i].productId).value;
      var k :| 0 <= k < |products| && products[k] == p;
      assert r[k].id == p.id;
    }
  }

  lemma ArchiveOk(ms: seq<Movement>, products: seq<Product>, shops: seq<Shop>, hw: int, id: int)
    requires ProductsOk(products, hw) && LinksOk(ms, products, shops)
    ensures ProductsOk(ArchivedProducts(products, id), hw)
    ensures LinksOk(ms, ArchivedProducts(products, id), shops)
  {
    var r := ArchivedProducts(products, id);
    assert forall i :: 0 <= i < |r| ==> r[i].id == products[i].id && r[i].sku == products[i].sku;
    forall i | 0 <= i < |ms| ensures FindProduct(r, ms[i].productId).Some? {
      var p := FindProduct(products, ms[i].productId).value;
      var k :| 0 <= k < |products| && products[k] == p;
      assert r[k].id == p.id;
    }
  }

  /** A movement with a new id whose keys resolve keeps the log well formed. */
  lemma MovementInsertOk(ms: seq<Movement>, products: seq<Product>, shops: seq<Shop>, hw: int, m: Movement)
    requires MovementsOk(ms, hw) && LinksOk(ms, products, shops) && 0 <= hw && m.id == hw + 1
    requires FindProduct(products, m.productId).Some? && FindShop(shops, m.shopId).Some?
    ensures MovementsOk(ms + [m], m.id) && LinksOk(ms + [m], products, shops)
  {
  }

  /** Everything a `Database` holds, as one value. */
  datatype Tables = Tables(shops: seq<Shop>, products: seq<Product>, movements: seq<Movement>,
                           shopSeq: int, productSeq: int, movementSeq: int)

  class Database {
    var shops: seq<Shop>
    var products: seq<Product>
    var movements: seq<Movement>
    /** The largest id ever handed out per table (`sqlite_sequence`). */
    var shopSeq: int
    var productSeq: int
    var movementSeq: int

    /** Primary keys are unique and never above the table's high-water mark,
        shop labels and non-null SKUs are unique, and every movement refers
        to an existing product and shop (`PRAGMA foreign_keys = ON`). */
    ghost predicate Valid()
      reads this
    {
      && 0 <= shopSeq && 0 <= productSeq && 0 <= movementSeq
      && ShopsOk(shops, shopSeq) && ProductsOk(products, productSeq) && MovementsOk(movements, movementSeq)
      && LinksOk(movements, products, shops)
    }

    function Snapshot(): Tables
      reads this
    {
      Tables(shops, products, movements, shopSeq, productSeq, movementSeq)
    }

    /** Opening a new database file: empty tables, then `_init_db`. */
    constructor ()
      ensures Valid()
      ensures shops == [Shop(DefaultShopId, DefaultShopLabel)] && products == [] && movements == []
    {
      shops := [];
      products := [];
      movements := [];
      shopSeq := 0;
      productSeq := 0;
      movementSeq := 0;
      new;
      InitDb();
    }

    /** `_init_db` on an already open file: `INSERT OR IGNORE` of shop 1. The
        insert is skipped when id 1 or the default label is already there. */
    method InitDb()
      requires Valid()
      modifies this
      ensures Valid()
      ensures products == old(products) && movements == old(movements) && productSeq == old(productSeq) && movementSeq == old(movementSeq)
      ensures FindShop(shops, DefaultShopId).Some? || LabelTaken(shops, DefaultShopLabel)
      ensures old(FindShop(shops, DefaultShopId).Some? || LabelTaken(shops, DefaultShopLabel)) ==>
                shops == old(shops) && shopSeq == old(shopSeq)
      ensures !old(FindShop(shops, DefaultShopId).Some? || LabelTaken(shops, DefaultShopLabel)) ==>
                shops == old(shops) + [Shop(DefaultShopId, DefaultShopLabel)]
                && shopSeq == Max(old(shopSeq), DefaultShopId)
    {
      if !(FindShop(shops, DefaultShopId).Some? || LabelTaken(shops, DefaultShopLabel)) {
        ShopInsertOk(shops, shopSeq, Shop(DefaultShopId, DefaultShopLabel));
        LinksAfterInsert(movements, products, shops, [], [Shop(DefaultShopId, DefaultShopLabel)]);
        assert products + [] == products;
        shops := shops + [Shop(DefaultShopId, DefaultShopLabel)];
        assert shops[|shops| - 1].libelle == DefaultShopLabel;
        shopSeq := Max(shopSeq, DefaultShopId);
      }
    }

    /** `list_shops`: every shop, ids ascending. */
    function ListShops(): (r: seq<Shop>)
      reads this
      ensures multiset(r) == multiset(shops)
      ensures forall i, j :: 0 <= i < j < |r| ==> r[i].id <= r[j].id
    {
      ShopsById(shops)
    }

    /** `add_shop`: a new shop with the next id, unless the label is taken. */
    method AddShop(libelle: string) returns (r: Outcome<DbError>)
      requires Valid()
      modifies this
      ensures Valid()
      ensures products == old(products) && movements == old(movements) && productSeq == old(productSeq) && movementSeq == old(movementSeq)
      ensures r.Fail? <==> old(LabelTaken(shops, libelle))
      ensures r.Fail? ==> r.error == UniqueViolation && shops == old(shops) && shopSeq == old(shopSeq)
      ensures r.Pass? ==> shops == old(shops) + [Shop(old(shopSeq) + 1, libelle)] && shopSeq == old(shopSeq) + 1
    {
      if LabelTaken(shops, libelle) {
        return Fail(UniqueViolation);
      }
      var row := Shop(shopSeq + 1, libelle);
      assert forall i :: 0 <= i < |shops| ==> shops[i].id != row.id;
      ShopInsertOk(shops, shopSeq, row);
      LinksAfterInsert(movements, products, shops, [], [row]);
      assert products + [] == products;
      shops := shops + [row];
      shopSeq := shopSeq + 1;
      return Pass;
    }

    /** `rename_shop`: fails only when the shop exists and another shop
        already has the label; an unknown id changes nothing. */
    method RenameShop(id: int, libelle: string) returns (r: Outcome<DbError>)
      requires Valid()
      modifies this
      ensures Valid()
      ensures products == old(products) && movements == old(movements) && shopSeq == old(shopSeq) && productSeq == old(productSeq) && movementSeq == old(movementSeq)
      ensures r.Fail? <==> old(FindShop(shops, id).Some? && LabelTakenByOther(shops, id, libelle))
      ensures r.Fail? ==> r.error == UniqueViolation && shops == old(shops)
      ensures r.Pass? ==> shops == RenamedShops(old(shops), id, libelle)
      ensures r.Pass? ==> forall i :: 0 <= i < |shops| ==>
                shops[i].libelle == if old(shops)[i].id == id then libelle else old(shops)[i].libelle
    {
      if FindShop(shops, id).Some? && LabelTakenByOther(shops, id, libelle) {
        return Fail(UniqueViolation);
      }
      RenameOk(movements, products, shops, shopSeq, id, libelle);
      shops := RenamedShops(shops, id, libelle);
      return Pass;
    }

    /** `delete_shop`: refused (false) while any movement refers to the shop,
        otherwise the shop row goes. */
    method DeleteShop(id: int) returns (deleted: bool)
      requires Valid()
      modifies this
      ensures Valid()
      ensures products == old(products) && movements == old(movements) && shopSeq == old(shopSeq) && productSeq == old(productSeq) && movementSeq == old(movementSeq)
      ensures deleted <==> forall i :: 0 <= i < |movements| ==> movements[i].shopId != id
      ensures deleted ==> shops == WithoutShop(old(shops), id)
      ensures !deleted ==> shops == old(shops)
    {
      var k := 0;
      while k < |movements|
        invariant 0 <= k <= |movements|
        invariant forall i :: 0 <= i < k ==> movements[i].shopId != id
      {
        if movements[k].shopId == id {
          return false;
        }
        k := k + 1;
      }
      WithoutShopOk(shops, shopSeq, id);
      LinksAfterDelete(movements, products, shops, id);
      shops := WithoutShop(shops, id);
      return true;
    }

    /** `add_product`: a new active product with the next id, unless its
        (non-null) SKU is taken. */
    method AddProduct(sku: Option<string>, libelle: string, poidsSacKg: real, prixKg: real, prixSac: real,
                      seuilKg: real) returns (r: Outcome<DbError>)
      requires Valid()
      modifies this
      ensures Valid()
      ensures shops == old(shops) && movements == old(movements) && shopSeq == old(shopSeq) && movementSeq == old(movementSeq)
      ensures r.Fail? <==> sku.Some? && old(SkuTakenByOther(products, None, sku.value))
      ensures r.Fail? ==> r.error == UniqueViolation && products == old(products) && productSeq == old(productSeq)
      ensures r.Pass? ==> productSeq == old(productSeq) + 1
                          && products == old(products) + [Product(productSeq, sku, libelle, poidsSacKg, prixKg, prixSac, seuilKg, 1)]
    {
      if sku.Some? && SkuTakenByOther(products, None, sku.value) {
        return Fail(UniqueViolation);
      }
      var row := Product(productSeq + 1, sku, libelle, poidsSacKg, prixKg, prixSac, seuilKg, 1);
      ProductInsertOk(products, productSeq, row);
      LinksAfterInsert(movements, products, shops, [row], []);
      assert shops + [] == shops;
      products := products + [row];
      productSeq := productSeq + 1;
      return Pass;
    }

    /** `update_product`: every column of the row `pid` is rewritten; fails
        only when the row exists and another product holds the SKU. */
    method UpdateProduct(pid: int, sku: Option<string>, libelle: string, poidsSacKg: real, prixKg: real,
                         prixSac: real, seuilKg: real, actif: int) returns (r: Outcome<DbError>)
      requires Valid()
      modifies this
      ensures Valid()
      ensures shops == old(shops) && movements == old(movements) && shopSeq == old(shopSeq) && productSeq == old(productSeq) && movementSeq == old(movementSeq)
      ensures r.Fail? <==> old(FindProduct(products, pid).Some?) && sku.Some?
                           && old(SkuTakenByOther(products, Some(pid), sku.value))
      ensures r.Fail? ==> r.error == UniqueViolation && products == old(products)
      ensures r.Pass? ==> products == ReplacedProduct(old(products), pid,
                                        Product(pid, sku, libelle, poidsSacKg, prixKg, prixSac, seuilKg, actif))
    {
      var row := Product(pid, sku, libelle, poidsSacKg, prixKg, prixSac, seuilKg, actif);
      if FindProduct(products, pid).Some? && sku.Some? && SkuTakenByOther(products, Some(pid), sku.value) {
        return Fail(UniqueViolation);
      }
      if FindProduct(products, pid).None? {
        assert ReplacedProduct(products, pid, row) == products;
      } else {
        ReplaceOk(movements, products, shops, productSeq, row);
      }
      products := ReplacedProduct(products, pid, row);
      return Pass;
    }

    /** `archive_product`: the product leaves the active listings; its row,
        movements and stock stay. */
    method ArchiveProduct(pid: int)
      requires Valid()
      modifies this
      ensures Valid()
      ensures shops == old(shops) && movements == old(movements) && shopSeq == old(shopSeq) && productSeq == old(productSeq) && movementSeq == old(movementSeq)
      ensures products == ArchivedProducts(old(products), pid)
    {
      ArchiveOk(movements, products, shops, productSeq, pid);
      products := ArchivedProducts(products, pid);
    }

    /** `add_movement`: the type must be IN, OUT or ADJ and both keys must
        resolve; the new row takes the next id, the timestamp `now` and the
        cost as given. Only the stock of its own (product, shop) pair moves,
        by exactly its signed quantity. */
    method AddMovement(productId: int, shopId: int, mtype: string, qtyKg: real, unitPriceKg: Option<real>,
                       unitPriceSac: Option<real>, cost: real, note: string, now: string)
      returns (r: Outcome<DbError>)
      requires Valid()
      modifies this
      ensures Valid()
      ensures shops == old(shops) && products == old(products) && shopSeq == old(shopSeq) && productSeq == old(productSeq)
      ensures r == if ParseMType(mtype).None? then Fail(CheckViolation)
                   else if old(FindProduct(products, productId).None? || FindShop(shops, shopId).None?)
                   then Fail(ForeignKeyViolation)
                   else Pass
      ensures r.Fail? ==> movements == old(movements) && movementSeq == old(movementSeq)
      ensures r.Pass? ==> movementSeq == old(movementSeq) + 1
                          && movements == old(movements) + [Movement(movementSeq, productId, shopId,
                               ParseMType(mtype).value, qtyKg, unitPriceKg, unitPriceSac, Some(cost), note, now)]
      ensures forall pid, sid :: Stock(movements, pid, sid)
                == old(Stock(movements, pid, sid))
                   + (if r.Pass? && pid == productId && sid == shopId then qtyKg else 0.0)
    {
      var t := ParseMType(mtype);
      if t.None? {
        return Fail(CheckViolation);
      }
      if FindProduct(products, productId).None? || FindShop(shops, shopId).None? {
        return Fail(ForeignKeyViolation);
      }
      var m := Movement(movementSeq + 1, productId, shopId, t.value, qtyKg, unitPriceKg, unitPriceSac,
                        Some(cost), note, now);
      MovementInsertOk(movements, products, shops, movementSeq, m);
      forall pid, sid ensures Stock(movements + [m], pid, sid)
                == Stock(movements, pid, sid) + (if pid == productId && sid == shopId then qtyKg else 0.0) {
        StockAfterAppend(movements, m, pid, sid);
      }
      movements := movements + [m];
      movementSeq := movementSeq + 1;
      return Pass;
    }

    // ---- queries ----

    /** `get_product`. */
    function GetProduct(pid: int): (r: Option<Product>)
      reads this
      ensures r.Some? ==> r.value in products && r.value.id == pid
      ensures r.None? <==> forall i :: 0 <= i < |products| ==> products[i].id != pid
    {
      FindProduct(products, pid)
    }

    /** `stock_kg`: the signed sum of the pair's movement quantities. */
    function StockKg(pid: int, sid: int): (r: real)
      reads this
      ensures r == Sum(MovementsOf(movements, pid, sid), Qty)
    {
      StockIsSumOfQuantities(movements, pid, sid);
      Stock(movements, pid, sid)
    }

    /** `total_stock_kg`: every movement of the shop, archived products
        included; it is the sum of the shop's per-product stocks. */
    function TotalStockKg(sid: int): (r: real)
      reads this
      requires Valid()
      ensures r == StockOverProducts(movements, ProductIds(products), sid)
    {
      var ids := ProductIds(products);
      assert NoDup(ids);
      forall i | 0 <= i < |movements| ensures movements[i].productId in ids {
        var p := FindProduct(products, movements[i].productId).value;
        var k :| 0 <= k < |products| && products[k] == p;
        assert ids[k] == p.id;
      }
      TotalStockIsSumOverProducts(movements, ids, sid);
      TotalStock(movements, sid)
    }

    /** `list_products`. */
    function ListProductsOf(q: string, includeInactive: bool): (r: seq<Product>)
      reads this
      ensures forall p :: p in r <==> p in products && MatchesQuery(p, q) && (includeInactive || Active(p))
    {
      ListProducts(products, q, includeInactive)
    }

    /** `list_movements`. */
    function ListMovementsOf(f: MovementFilter): (r: seq<MovementRow>)
      reads this
      ensures multiset(Movements(r)) == multiset(Window(movements, products, shops, f))
    {
      ListMovements(movements, products, shops, f)
    }

    /** `all_stocks`: the active products by label, each with its stock. */
    method AllStocks(sid: int) returns (r: seq<(Product, real)>)
      ensures r == StockRows(ListProducts(products, "", false), movements, sid)
    {
      r := StocksOf(ListProducts(products, "", false), sid);
    }

    /** The loop of `all_stocks` over a product listing. */
    method StocksOf(listed: seq<Product>, sid: int) returns (r: seq<(Product, real)>)
      ensures r == StockRows(listed, movements, sid)
    {
      r := [];
      var i := 0;
      while i < |listed|
        invariant 0 <= i <= |listed|
        invariant r == StockRows(listed[..i], movements, sid)
      {
        StockRowsStep(listed, movements, sid, i);
        r := r + [(listed[i], StockKg(listed[i].id, sid))];
        i := i + 1;
      }
      assert listed[..i] == listed;
    }

    /** `low_stock_products`: the active products whose stock is at or below
        their threshold, with that stock. */
    method LowStockProducts(sid: int) returns (r: seq<LowStockItem>)
      ensures r == LowStockOf(ListProducts(products, "", false), movements, sid)
      ensures forall x :: x in r <==> x.product in products && Active(x.product)
                                      && x.stockKg == Stock(movements, x.product.id, sid) && x.stockKg <= x.product.seuilKg
    {
      var rows := AllStocks(sid);
      var listed := ListProducts(products, "", false);
      r := [];
      var i := 0;
      while i < |rows|
        invariant 0 <= i <= |rows|
        invariant r == LowStockOf(listed[..i], movements, sid)
      {
        LowStockStep(listed, movements, sid, i);
        var (p, qty) := rows[i];
        if qty <= p.seuilKg {
          r := r + [LowStockItem(p, qty)];
        }
        i := i + 1;
      }
      assert listed[..i] == listed;
      forall p: Product ensures MatchesQuery(p, "") {
        BlankQueryMatchesAll(p, "");
      }
    }

    /** `total_sales_and_cogs`: the type filter is accepted and ignored; the
        other filters select the window, whose products are then walked one
        group at a time. */
    method TotalSalesAndCogs(mtype: Option<string>, shopId: Option<int>, q: string, dateFrom: Option<string>,
                             dateTo: Option<string>) returns (sales: real, cogs: real)
      ensures SalesAndCogs(sales, cogs)
              == SalesAndCogsOf(Window(movements, products, shops, MovementFilter(None, shopId, q, dateFrom, dateTo)))
      ensures sales == Sum(Window(movements, products, shops, MovementFilter(None, shopId, q, dateFrom, dateTo)), OutRevenue)
    {
      var w := Window(movements, products, shops, MovementFilter(None, shopId, q, dateFrom, dateTo));
      sales, cogs := AccumulateTotals(w);
    }
  }
}
