/** The three tables of the ledger (`shop`, `product`, `movement` in
    `db.py`), lookups by identifier, and the product catalogue query. */
module Records {
  import opened Wrappers
  import opened Text
  import opened Sorting

  datatype Shop = Shop(id: int, libelle: string)

  /** `actif` is an integer column; only the value 1 counts as active. */
  datatype Product = Product(id: int, sku: Option<string>, libelle: string, poidsSacKg: real,
                             prixKg: real, prixSac: real, seuilKg: real, actif: int)

  /** The values the `CHECK(type IN ('IN','OUT','ADJ'))` constraint admits. */
  datatype MType = IN | OUT | ADJ {
    function Name(): string {
      match this
      case IN => "IN"
      case OUT => "OUT"
      case ADJ => "ADJ"
    }
  }

  /** A ledger entry. `cost` is nullable in the schema; rows written by
      `add_movement` always carry one. */
  datatype Movement = Movement(id: int, productId: int, shopId: int, mtype: MType, qtyKg: real,
                               unitPriceKg: Option<real>, unitPriceSac: Option<real>,
                               cost: Option<real>, note: string, createdAt: string)

  /** The constraint a failed write violated. */
  datatype DbError = UniqueViolation | CheckViolation | ForeignKeyViolation | NotNullViolation

  const DefaultShopId: int := 1
  const DefaultShopLabel: string := "Boutique Principale"

  /** The `type` column's check: exactly the three names are accepted. */
  function ParseMType(s: string): (r: Option<MType>)
    ensures r.Some? <==> s == "IN" || s == "OUT" || s == "ADJ"
    ensures r.Some? ==> r.value.Name() == s
  {
    if s == "IN" then Some(IN) else if s == "OUT" then Some(OUT) else if s == "ADJ" then Some(ADJ) else None
  }

  predicate Active(p: Product) {
    p.actif == 1
  }

  /** `SELECT * FROM t WHERE id=?` on a table whose rows carry the
      primary key `key`: the first row with that key, or None. */
  function FindBy<T>(rows: seq<T>, key: T -> int, id: int): (r: Option<T>)
    ensures r.Some? ==> r.value in rows && key(r.value) == id
    ensures r.None? <==> forall i :: 0 <= i < |rows| ==> key(rows[i]) != id
  {
    if rows == [] then None
    else if key(rows[0]) == id then Some(rows[0])
    else FindBy(rows[1..], key, id)
  }

  /** `SELECT * FROM shop WHERE id=?`. */
  function FindShop(shops: seq<Shop>, id: int): (r: Option<Shop>)
    ensures r.Some? ==> r.value in shops && r.value.id == id
    ensures r.None? <==> forall i :: 0 <= i < |shops| ==> shops[i].id != id
  {
    FindBy(shops, (s: Shop) => s.id, id)
  }

  function ShopIdLe(a: Shop, b: Shop): bool {
    a.id <= b.id
  }

  /** `SELECT * FROM shop ORDER BY id`: every shop, ids ascending. */
  function ShopsById(shops: seq<Shop>): (r: seq<Shop>)
    ensures multiset(r) == multiset(shops)
    ensures forall i, j :: 0 <= i < j < |r| ==> r[i].id <= r[j].id
  {
    assert Total(ShopIdLe);
    var r := SortBy(shops, ShopIdLe);
    assert Transitive(ShopIdLe);
    forall i, j | 0 <= i < j < |r| ensures r[i].id <= r[j].id {
      SortedPairwise(r, ShopIdLe, i, j);
    }
    r
  }

  /** `get_product`: the row with that id, or None. */
  function FindProduct(products: seq<Product>, id: int): (r: Option<Product>)
    ensures r.Some? ==> r.value in products && r.value.id == id
    ensures r.None? <==> forall i :: 0 <= i < |products| ==> products[i].id != id
  {
    FindBy(products, (p: Product) => p.id, id)
  }

  predicate LabelTaken(shops: seq<Shop>, libelle: string) {
    exists i :: 0 <= i < |shops| && shops[i].libelle == libelle
  }

  /** Some shop other than `id` already has the label. */
  predicate LabelTakenByOther(shops: seq<Shop>, id: int, libelle: string) {
    exists i :: 0 <= i < |shops| && shops[i].id != id && shops[i].libelle == libelle
  }

  /** Some product other than `id` already has the (non-null) SKU. */
  predicate SkuTakenByOther(products: seq<Product>, id: Option<int>, sku: string) {
    exists i :: 0 <= i < |products| && Some(products[i].id) != id && products[i].sku == Some(sku)
  }

  predicate UniqueShopIds(shops: seq<Shop>) {
    forall i, j :: 0 <= i < j < |shops| ==> shops[i].id != shops[j].id
  }

  predicate UniqueShopLabels(shops: seq<Shop>) {
    forall i, j :: 0 <= i < j < |shops| ==> shops[i].libelle != shops[j].libelle
  }

  predicate UniqueProductIds(products: seq<Product>) {
    forall i, j :: 0 <= i < j < |products| ==> products[i].id != products[j].id
  }

  /** SQLite's UNIQUE admits any number of NULL SKUs. */
  predicate UniqueSkus(products: seq<Product>) {
    forall i, j :: 0 <= i < j < |products| && products[i].sku.Some? ==> products[i].sku != products[j].sku
  }

  /** `UPDATE shop SET libelle=? WHERE id=?`. */
  function RenamedShops(shops: seq<Shop>, id: int, libelle: string): (r: seq<Shop>)
    ensures |r| == |shops|
    ensures forall i :: 0 <= i < |r| ==> r[i].id == shops[i].id
  {
    seq(|shops|, i requires 0 <= i < |shops| => if shops[i].id == id then shops[i].(libelle := libelle) else shops[i])
  }

  /** `DELETE FROM shop WHERE id=?`: every other row, in order. */
  function WithoutShop(shops: seq<Shop>, id: int): (r: seq<Shop>)
    ensures forall s :: s in r <==> s in shops && s.id != id
    ensures |r| <= |shops|
  {
    if shops == [] then []
    else if shops[|shops| - 1].id == id then WithoutShop(shops[..|shops| - 1], id)
    else WithoutShop(shops[..|shops| - 1], id) + [shops[|shops| - 1]]
  }

  /** `UPDATE product SET ... WHERE id=?`: the row with that id becomes `row`. */
  function ReplacedProduct(products: seq<Product>, id: int, row: Product): (r: seq<Product>)
    ensures |r| == |products|
  {
    seq(|products|, i requires 0 <= i < |products| => if products[i].id == id then row else products[i])
  }

  /** After the update, looking up `id` finds the new row when the product
      existed, and every other id finds what it found before. */
  lemma {:induction false} ReplacedProductFind(products: seq<Product>, id: int, row: Product, k: int)
    requires row.id == id
    ensures FindProduct(ReplacedProduct(products, id, row), k)
            == if k == id && FindProduct(products, id).Some? then Some(row) else FindProduct(products, k)
  {
    if products != [] {
      assert ReplacedProduct(products, id, row)[1..] == ReplacedProduct(products[1..], id, row);
      ReplacedProductFind(products[1..], id, row, k);
    }
  }

  /** `UPDATE product SET actif=0 WHERE id=?`. */
  function ArchivedProducts(products: seq<Product>, id: int): (r: seq<Product>)
    ensures |r| == |products|
  {
    seq(|products|, i requires 0 <= i < |products| =>
      if products[i].id == id then products[i].(actif := 0) else products[i])
  }

  /** Archiving touches only the rows with that id, clears exactly their flag,
      and a second archive changes nothing. */
  lemma ArchiveIsIdempotent(products: seq<Product>, id: int)
    ensures ArchivedProducts(ArchivedProducts(products, id), id) == ArchivedProducts(products, id)
    ensures forall i :: 0 <= i < |products| && products[i].id != id ==> ArchivedProducts(products, id)[i] == products[i]
    ensures forall i :: 0 <= i < |products| && products[i].id == id ==>
      var p := ArchivedProducts(products, id)[i];
      !Active(p) && p.(actif := products[i].actif) == products[i]
  {
  }

  /** `libelle LIKE '%q%' OR ifnull(sku,'') LIKE '%q%'` with `q` stripped. */
  predicate MatchesQuery(p: Product, q: string) {
    LikeSubstring(p.libelle, Strip(q)) || LikeSubstring(p.sku.GetOr(""), Strip(q))
  }

  /** The empty (or blank) query matches every product, like the pattern '%'. */
  lemma BlankQueryMatchesAll(p: Product, q: string)
    requires Strip(q) == ""
    ensures MatchesQuery(p, q)
  {
    assert IsPrefix(Lower(""), Lower(p.libelle));
  }

  function LibelleLe(a: Product, b: Product): bool {
    LexLe(a.libelle, b.libelle)
  }

  lemma LibelleOrderTotal()
    ensures Total(LibelleLe)
  {
    forall a: Product, b: Product ensures LibelleLe(a, b) || LibelleLe(b, a) {
      LexLeTotal(a.libelle, b.libelle);
    }
  }

  predicate Listed(p: Product, q: string, includeInactive: bool) {
    MatchesQuery(p, q) && (includeInactive || Active(p))
  }

  /** The rows selected by the WHERE clause, in table order. */
  function Selected(products: seq<Product>, q: string, includeInactive: bool): (r: seq<Product>)
    ensures forall p :: multiset(r)[p] == if Listed(p, q, includeInactive) then multiset(products)[p] else 0
  {
    if products == [] then []
    else
      var last := products[|products| - 1];
      assert products == products[..|products| - 1] + [last];
      var rest := Selected(products[..|products| - 1], q, includeInactive);
      if Listed(last, q, includeInactive) then rest + [last] else rest
  }

  /** `list_products`: the matching rows (active ones only unless asked),
      ordered by label. */
  function ListProducts(products: seq<Product>, q: string, includeInactive: bool): (r: seq<Product>)
    ensures forall p :: multiset(r)[p] == if Listed(p, q, includeInactive) then multiset(products)[p] else 0
    ensures forall p :: p in r <==> p in products && MatchesQuery(p, q) && (includeInactive || Active(p))
    ensures Sorted(r, LibelleLe)
  {
    LibelleOrderTotal();
    var r := SortBy(Selected(products, q, includeInactive), LibelleLe);
    assert forall p :: p in r <==> multiset(r)[p] > 0;
    r
  }

  /** Any two listed products appear in label order. */
  lemma ListProductsOrdered(products: seq<Product>, q: string, includeInactive: bool, i: nat, j: nat)
    requires i < j < |ListProducts(products, q, includeInactive)|
    ensures LexLe(ListProducts(products, q, includeInactive)[i].libelle, ListProducts(products, q, includeInactive)[j].libelle)
  {
    forall a: Product, b: Product, c: Product | LibelleLe(a, b) && LibelleLe(b, c) ensures LibelleLe(a, c) {
      LexLeTransitive(a.libelle, b.libelle, c.libelle);
    }
    SortedPairwise(ListProducts(products, q, includeInactive), LibelleLe, i, j);
  }
}
