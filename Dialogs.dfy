/** The entry rules of `ui/dialogs.py`: how the product form is normalised
    before it reaches the store, how the movement dialog turns bags, kilograms
    and unit prices into a signed quantity and a cost, how an existing
    movement is split back into bags and kilograms, and the login codes. */
module Dialogs {
  import opened Wrappers
  import opened Text
  import opened Sums
  import opened Units
  import opened Records
  import opened Ledger

  // ---- ProductDialog.save ----

  /** The six text fields of the product form. */
  datatype ProductForm = ProductForm(sku: string, libelle: string, poidsSacKg: string, prixKg: string,
                                     prixSac: string, seuilKg: string)

  /** The values handed to the store. */
  datatype ProductFields = ProductFields(sku: Option<string>, libelle: string, poidsSacKg: real, prixKg: real,
                                         prixSac: real, seuilKg: real)

  /** What saving the form does: nothing (blank label), an insert, or an
      update of the edited product that keeps its `actif` flag. */
  datatype ProductCommand = Rejected | Insert(fields: ProductFields) | Update(pid: int, fields: ProductFields, actif: int)

  /** A stripped field, blank meaning NULL. */
  function Nullable(s: string): (r: Option<string>)
    ensures r.None? <==> Strip(s) == ""
    ensures r.Some? ==> r.value == Strip(s) && r.value != ""
  {
    if Strip(s) == "" then None else Some(Strip(s))
  }

  /** A stripped numeric field read by `safe_float` (0 when unreadable). */
  function FormNumber(s: string): real {
    SafeFloat(Some(Strip(s)), 0.0)
  }

  function ProductSave(form: ProductForm, editing: Option<Product>): (r: ProductCommand)
    ensures r.Rejected? <==> Strip(form.libelle) == ""
    ensures r.Insert? <==> editing.None? && Strip(form.libelle) != ""
    ensures r.Update? ==> editing.Some? && r.pid == editing.value.id && r.actif == editing.value.actif
  {
    if Strip(form.libelle) == "" then Rejected
    else
      var fields := ProductFields(Nullable(form.sku), Strip(form.libelle), FormNumber(form.poidsSacKg),
                                  FormNumber(form.prixKg), FormNumber(form.prixSac), FormNumber(form.seuilKg));
      if editing.Some? then Update(editing.value.id, fields, editing.value.actif) else Insert(fields)
  }

  /** What reaches the store is the stripped form: a non-blank label, a
      blank SKU as NULL and a non-blank one stripped, numbers read by
      `safe_float` with 0 for anything unreadable. */
  lemma ProductSaveNormalises(form: ProductForm, editing: Option<Product>)
    requires Strip(form.libelle) != ""
    ensures var f := ProductSave(form, editing).fields;
            && f.libelle == Strip(form.libelle) && f.libelle != "" && !IsSpace(f.libelle[0])
            && (f.sku.None? <==> Strip(form.sku) == "")
            && (f.sku.Some? ==> f.sku.value == Strip(form.sku) && !IsSpace(f.sku.value[0]) && !AllSpace(f.sku.value))
            && f.poidsSacKg == FormNumber(form.poidsSacKg) && f.prixKg == FormNumber(form.prixKg)
            && f.prixSac == FormNumber(form.prixSac) && f.seuilKg == FormNumber(form.seuilKg)
  {
    StripSpec(form.libelle);
    StripSpec(form.sku);
  }

  /** The blank new-product form ("50" kg bags, zero prices) stores those
      numbers once a label is typed. */
  lemma NewProductDefaults(libelle: string)
    requires Strip(libelle) != ""
    ensures ProductSave(ProductForm("", libelle, "50", "0", "0", "0"), None)
         == Insert(ProductFields(None, Strip(libelle), 50.0, 0.0, 0.0, 0.0))
  {
    FormNumberFifty();
    FormNumberZero();
    assert Nullable("") == None;
  }

  lemma FormNumberFifty()
    ensures FormNumber("50") == 50.0
  {
    assert NatText(50) == "50";
    FormNumberOfNatural(50);
  }

  lemma FormNumberZero()
    ensures FormNumber("0") == 0.0
  {
    assert NatText(0) == "0";
    FormNumberOfNatural(0);
  }

  lemma FormNumberOfNatural(n: nat)
    requires n == 0 || n == 50
    ensures FormNumber(NatText(n)) == n as real
  {
    var s := NatText(n);
    assert !IsSpace(s[0]) && !IsSpace(s[|s| - 1]);
    StripUnpadded(s);
    SafeFloatReadsNatural(n, 0.0);
  }

  lemma StripUnpadded(s: string)
    requires s != [] && !IsSpace(s[0]) && !IsSpace(s[|s| - 1])
    ensures Strip(s) == s
  {
  }

  datatype SaveResult = BlankLabel | Saved | StoreError(error: DbError)

  /** The product row a successful command leaves in place of / after the
      existing rows. */
  function CommandRow(cmd: ProductCommand, nextId: int): Product
    requires !cmd.Rejected?
  {
    var f := cmd.fields;
    Product(if cmd.Update? then cmd.pid else nextId, f.sku, f.libelle, f.poidsSacKg, f.prixKg, f.prixSac, f.seuilKg,
            if cmd.Update? then cmd.actif else 1)
  }

  /** The store refuses the command exactly when its (non-null) SKU is held
      by another product; an update of an id no row has changes nothing and
      does not fail. */
  predicate SkuConflict(products: seq<Product>, cmd: ProductCommand)
    requires !cmd.Rejected?
  {
    && cmd.fields.sku.Some?
    && if cmd.Update? then FindProduct(products, cmd.pid).Some? && SkuTakenByOther(products, Some(cmd.pid), cmd.fields.sku.value)
       else SkuTakenByOther(products, None, cmd.fields.sku.value)
  }

  /** The store call of `save`: `add_product` or `update_product`. */
  method SubmitProduct(db: Database, cmd: ProductCommand) returns (out: Outcome<DbError>)
    requires db.Valid() && !cmd.Rejected?
    modifies db
    ensures db.Valid()
    ensures db.shops == old(db.shops) && db.movements == old(db.movements) && db.shopSeq == old(db.shopSeq) && db.movementSeq == old(db.movementSeq)
    ensures out.Pass? ==> db.productSeq == old(db.productSeq) + (if cmd.Insert? then 1 else 0)
    ensures out.Fail? <==> SkuConflict(old(db.products), cmd)
    ensures out.Fail? ==> out.error == UniqueViolation && db.Snapshot() == old(db.Snapshot())
    ensures out.Pass? && cmd.Insert? ==> db.products == old(db.products) + [CommandRow(cmd, old(db.productSeq) + 1)]
    ensures out.Pass? && cmd.Update? ==> db.products == ReplacedProduct(old(db.products), cmd.pid, CommandRow(cmd, 0))
  {
    var f := cmd.fields;
    if cmd.Update? {
      out := db.UpdateProduct(cmd.pid, f.sku, f.libelle, f.poidsSacKg, f.prixKg, f.prixSac, f.seuilKg, cmd.actif);
    } else {
      out := db.AddProduct(f.sku, f.libelle, f.poidsSacKg, f.prixKg, f.prixSac, f.seuilKg);
    }
  }

  /** The product dialog: the edited product (none for a new one), the form,
      and whether the window is still open. */
  class ProductDialog {
    const db: Database
    const product: Option<Product>
    var form: ProductForm
    var open: bool

    constructor (db: Database, product: Option<Product>, form: ProductForm)
      ensures this.db == db && this.product == product && this.form == form && open
    {
      this.db := db;
      this.product := product;
      this.form := form;
      open := true;
    }

    /** `save`: a blank label is refused before the store is touched; a store
        error leaves the window open; success closes it. */
    method Save() returns (r: SaveResult)
      requires db.Valid()
      modifies db, this`open
      ensures db.Valid()
      ensures var cmd := ProductSave(form, product);
              && (r.BlankLabel? <==> cmd.Rejected?)
              && (r.StoreError? <==> !cmd.Rejected? && SkuConflict(old(db.products), cmd))
              && (r.StoreError? ==> r.error == UniqueViolation)
              && (r.Saved? && product.None? ==> db.products == old(db.products) + [CommandRow(cmd, old(db.productSeq) + 1)])
              && (r.Saved? && product.Some? ==> db.products == ReplacedProduct(old(db.products), product.value.id, CommandRow(cmd, 0)))
      ensures !r.Saved? ==> db.Snapshot() == old(db.Snapshot()) && open == old(open)
      ensures r.Saved? ==> !open
      ensures db.shops == old(db.shops) && db.movements == old(db.movements) && db.shopSeq == old(db.shopSeq) && db.movementSeq == old(db.movementSeq)
      ensures r.Saved? ==> db.productSeq == old(db.productSeq) + (if product.None? then 1 else 0)
    {
      var cmd := ProductSave(form, product);
      ghost var before := db.products;
      r := Dispatch(cmd);
      assert r.StoreError? <==> !cmd.Rejected? && SkuConflict(before, cmd);
    }

    method Dispatch(cmd: ProductCommand) returns (r: SaveResult)
      requires db.Valid()
      requires cmd.Update? ==> product.Some? && cmd.pid == product.value.id
      requires cmd.Insert? ==> product.None?
      modifies db, this`open
      ensures db.Valid()
      ensures r.BlankLabel? <==> cmd.Rejected?
      ensures r.StoreError? <==> !cmd.Rejected? && SkuConflict(old(db.products), cmd)
      ensures r.StoreError? ==> r.error == UniqueViolation
      ensures !r.Saved? ==> db.Snapshot() == old(db.Snapshot()) && open == old(open)
      ensures r.Saved? ==> !open && !cmd.Rejected?
      ensures r.Saved? && cmd.Insert? ==> db.products == old(db.products) + [CommandRow(cmd, old(db.productSeq) + 1)]
      ensures r.Saved? && cmd.Update? ==> db.products == ReplacedProduct(old(db.products), cmd.pid, CommandRow(cmd, 0))
      ensures db.shops == old(db.shops) && db.movements == old(db.movements) && db.shopSeq == old(db.shopSeq) && db.movementSeq == old(db.movementSeq)
      ensures r.Saved? ==> db.productSeq == old(db.productSeq) + (if cmd.Insert? then 1 else 0)
    {
      if cmd.Rejected? {
        return BlankLabel;
      }
      var out := SubmitProduct(db, cmd);
      if out.Fail? {
        return StoreError(out.error);
      }
      open := false;
      return Saved;
    }
  }

  // ---- MovementDialog ----

  /** The total quantity in kilograms: bags count only for a positive bag
      weight and a positive number of bags; loose kilograms always count. */
  function EntryTotalKg(poids: real, numBags: real, numKg: real): (r: real)
    ensures r == numKg <==> !(poids > 0.0 && numBags > 0.0)
    ensures poids > 0.0 && numBags > 0.0 ==> r == BagsToKg(numBags, poids) + numKg
  {
    (if poids > 0.0 && numBags > 0.0 then MulStrict(0.0, numBags, poids); numBags * poids else 0.0) + numKg
  }

  /** The cost: bags at the bag price plus kilograms at the kilogram price,
      each only when both factors are positive. */
  function EntryCost(numBags: real, numKg: real, priceSac: real, priceKg: real): (r: real)
    ensures r == 0.0 <==> !(numBags > 0.0 && priceSac > 0.0) && !(numKg > 0.0 && priceKg > 0.0)
  {
    (if numBags > 0.0 && priceSac > 0.0 then MulStrict(0.0, numBags, priceSac); numBags * priceSac else 0.0)
    + (if numKg > 0.0 && priceKg > 0.0 then MulStrict(0.0, numKg, priceKg); numKg * priceKg else 0.0)
  }

  /** OUT movements are recorded with a negative quantity. */
  function SignedTotal(mtype: string, total: real): (r: real)
    ensures Abs(r) == Abs(total)
  {
    if mtype == "OUT" then -total else total
  }

  /** Unit prices that are not positive are stored as NULL. */
  function PriceOrNull(x: real): (r: Option<real>)
    ensures r.Some? <==> x > 0.0
    ensures r.Some? ==> r.value == x
  {
    if x > 0.0 then Some(x) else None
  }

  /** The total computation: bags first (when they count), then loose kilograms. */
  method ComputeTotal(poids: real, numBags: real, numKg: real) returns (total: real)
    ensures total == EntryTotalKg(poids, numBags, numKg)
  {
    total := 0.0;
    if poids > 0.0 && numBags > 0.0 {
      total := total + numBags * poids;
    }
    total := total + numKg;
  }

  /** The cost computation with its two single-price overrides; the
      overrides never change the value the two-term sum already gives. */
  method ComputeCost(numBags: real, numKg: real, priceSac: real, priceKg: real) returns (cost: real)
    ensures cost == EntryCost(numBags, numKg, priceSac, priceKg)
  {
    cost := 0.0;
    if numBags > 0.0 && priceSac > 0.0 {
      cost := cost + numBags * priceSac;
    }
    if numKg > 0.0 && priceKg > 0.0 {
      cost := cost + numKg * priceKg;
    }
    if numBags > 0.0 && numKg == 0.0 && priceSac > 0.0 && priceKg <= 0.0 {
      cost := numBags * priceSac;
    } else if numKg > 0.0 && numBags == 0.0 && priceKg > 0.0 && priceSac <= 0.0 {
      cost := numKg * priceKg;
    }
  }

  /** A recorded entry's total was checked positive, so its stored quantity
      is negative exactly for OUT. */
  lemma RecordedSignMatchesType(mtype: string, total: real)
    requires total > 0.0
    ensures SignedTotal(mtype, total) < 0.0 <==> mtype == "OUT"
    ensures Abs(SignedTotal(mtype, total)) == total
  {
  }

  /** The costs are never negative for non-negative quantities. */
  lemma CostNonNegative(numBags: real, numKg: real, priceSac: real, priceKg: real)
    ensures EntryCost(numBags, numKg, priceSac, priceKg) >= 0.0
  {
    if numBags > 0.0 && priceSac > 0.0 {
      MulStrict(0.0, numBags, priceSac);
    }
    if numKg > 0.0 && priceKg > 0.0 {
      MulStrict(0.0, numKg, priceKg);
    }
  }

  /** The edit-mode split of a stored quantity: with a positive bag weight,
      whole bags of `|qty|` and the kilograms left; otherwise all kilograms. */
  function EditSplit(qtyKg: real, product: Option<Product>): (r: (int, real))
    ensures r.0 >= 0 && r.1 >= 0.0
    ensures r.0 == 0 ==> r.1 == Abs(qtyKg)
  {
    var a := Abs(qtyKg);
    if product.Some? && product.value.poidsSacKg > 0.0 then
      var n := (a / product.value.poidsSacKg).Floor;
      DivStrictNonNegative(a, product.value.poidsSacKg);
      FloorDivBounds(a, product.value.poidsSacKg);
      (n, a - n as real * product.value.poidsSacKg)
    else (0, a)
  }

  /** Bags and kilograms of the split add back up to `|qty|`, whichever way
      the dialog then totals them, and agree with `kg_to_bags`. */
  lemma EditSplitRecombines(qtyKg: real, product: Option<Product>)
    ensures var (bags, kg) := EditSplit(qtyKg, product);
            && bags >= 0 && kg >= 0.0
            && EntryTotalKg(if product.Some? then product.value.poidsSacKg else 0.0, bags as real, kg) == Abs(qtyKg)
    ensures product.Some? && product.value.poidsSacKg > 0.0 ==>
              var (bags, kg) := EditSplit(qtyKg, product);
              Bags(bags, kg) == KgToBags(Abs(qtyKg), product.value.poidsSacKg) && kg < product.value.poidsSacKg
  {
    if product.Some? && product.value.poidsSacKg > 0.0 {
      var w := product.value.poidsSacKg;
      var a := Abs(qtyKg);
      FloorDivBounds(a, w);
      var n := (a / w).Floor;
      assert n >= 0 by {
        DivStrictNonNegative(a, w);
      }
    }
  }

  lemma DivStrictNonNegative(a: real, w: real)
    requires a >= 0.0 && w > 0.0
    ensures (a / w).Floor >= 0
  {
    assert a / w >= 0.0;
  }

  /** The constraint `add_movement` would violate, in the order SQLite checks
      them: the NOT NULL shop id (a shop label missing from the dialog's
      list), the type's CHECK, then the two foreign keys. None when the row
      is accepted. */
  function EntryError(products: seq<Product>, shops: seq<Shop>, productId: int, shopId: Option<int>,
                      mtype: string): (r: Option<DbError>)
    ensures r.None? <==> shopId.Some? && ParseMType(mtype).Some? && FindProduct(products, productId).Some?
                         && FindShop(shops, shopId.value).Some?
  {
    if shopId.None? then Some(NotNullViolation)
    else if ParseMType(mtype).None? then Some(CheckViolation)
    else if FindProduct(products, productId).None? || FindShop(shops, shopId.value).None? then Some(ForeignKeyViolation)
    else None
  }

  /** The dialog's `shop_ids`: every shop label mapped to its id, and no
      other key. Labels are unique in the store, so no label maps twice. */
  function LabelIndex(shops: seq<Shop>): (m: map<string, int>)
    requires UniqueShopLabels(shops)
    ensures forall i :: 0 <= i < |shops| ==> shops[i].libelle in m && m[shops[i].libelle] == shops[i].id
    ensures forall k :: k in m ==> exists i :: 0 <= i < |shops| && shops[i].libelle == k
  {
    map i | 0 <= i < |shops| :: shops[i].libelle := shops[i].id
  }

  /** The shop id `shop_ids.get(label)` hands to the store. */
  function ShopIdFor(shopIds: map<string, int>, name: string): (r: Option<int>)
    ensures r.Some? <==> name in shopIds
    ensures r.Some? ==> r.value == shopIds[name]
  {
    if name in shopIds then Some(shopIds[name]) else None
  }

  /** The outcome of pressing "Enregistrer". */
  datatype EntryOutcome = NoProduct | NonPositiveTotal | Recorded | StoreFailed(error: DbError)

  /** The movement dialog for a new movement. */
  class MovementDialog {
    const db: Database
    var product: Option<Product>
    var mtypeVar: string
    var shopVar: string
    /** Shop label -> id, read from `list_shops` when the dialog opened. */
    var shopIds: map<string, int>
    var sacsQty: real
    var kgQty: real
    var sacPrice: real
    var kgPrice: real
    var noteText: string
    var saved: bool

    constructor (db: Database, product: Option<Product>, mtype: Option<string>, shopLabel: string)
      requires db.Valid()
      ensures this.db == db && this.product == product && !saved
      ensures mtypeVar == (if mtype.None? || mtype.value == "" then "IN" else mtype.value) && shopVar == shopLabel
      ensures shopIds == LabelIndex(db.shops)
      ensures sacsQty == 0.0 && kgQty == 0.0 && sacPrice == 0.0 && kgPrice == 0.0 && noteText == ""
    {
      this.db := db;
      this.product := product;
      mtypeVar := if mtype.None? || mtype.value == "" then "IN" else mtype.value;
      shopVar := shopLabel;
      shopIds := LabelIndex(db.shops);
      sacsQty, kgQty, sacPrice, kgPrice := 0.0, 0.0, 0.0, 0.0;
      noteText := "";
      saved := false;
    }

    /** `on_save` for a new movement. */
    method OnSave(now: string) returns (r: EntryOutcome)
      requires db.Valid()
      modifies db, this`saved
      ensures db.Valid()
      ensures db.shops == old(db.shops) && db.products == old(db.products) && db.shopSeq == old(db.shopSeq) && db.productSeq == old(db.productSeq)
      ensures r.Recorded? ==> db.movementSeq == old(db.movementSeq) + 1
      ensures r.NoProduct? <==> product.None?
      ensures r.NonPositiveTotal? <==> product.Some? && EntryTotalKg(product.value.poidsSacKg, sacsQty, kgQty) <= 0.0
      ensures !r.Recorded? ==> db.Snapshot() == old(db.Snapshot()) && saved == old(saved)
      ensures r.StoreFailed? <==>
                product.Some? && EntryTotalKg(product.value.poidsSacKg, sacsQty, kgQty) > 0.0
                && EntryError(old(db.products), old(db.shops), product.value.id, ShopIdFor(shopIds, shopVar), mtypeVar).Some?
      ensures r.StoreFailed? ==>
                Some(r.error) == EntryError(old(db.products), old(db.shops), product.value.id, ShopIdFor(shopIds, shopVar), mtypeVar)
      ensures r.Recorded? ==> saved && product.Some? && shopVar in shopIds && ParseMType(mtypeVar).Some?
      ensures r.Recorded? ==>
                db.movements == old(db.movements)
                  + [Movement(old(db.movementSeq) + 1, product.value.id, shopIds[shopVar], ParseMType(mtypeVar).value,
                              SignedTotal(mtypeVar, EntryTotalKg(product.value.poidsSacKg, sacsQty, kgQty)),
                              PriceOrNull(kgPrice), PriceOrNull(sacPrice),
                              Some(EntryCost(sacsQty, kgQty, sacPrice, kgPrice)), Strip(noteText), now)]
      ensures r.Recorded? ==> (db.movements[|db.movements| - 1].qtyKg < 0.0 <==> mtypeVar == "OUT")
    {
      if product.None? {
        return NoProduct;
      }
      var shopId := ShopIdFor(shopIds, shopVar);
      r := Record(product.value, mtypeVar, shopId, sacsQty, kgQty, sacPrice, kgPrice, noteText, now);
    }

    /** The rest of `on_save` once a product is selected: total, cost, sign,
        then the store call. */
    method Record(p: Product, mtype: string, shopId: Option<int>, numBags: real, numKg: real,
                  priceSac: real, priceKg: real, noteText: string, now: string) returns (r: EntryOutcome)
      requires db.Valid()
      modifies db, this`saved
      ensures db.Valid()
      ensures !r.NoProduct?
      ensures db.shops == old(db.shops) && db.products == old(db.products) && db.shopSeq == old(db.shopSeq) && db.productSeq == old(db.productSeq)
      ensures r.Recorded? ==> db.movementSeq == old(db.movementSeq) + 1
      ensures r.NonPositiveTotal? <==> EntryTotalKg(p.poidsSacKg, numBags, numKg) <= 0.0
      ensures !r.Recorded? ==> db.Snapshot() == old(db.Snapshot()) && saved == old(saved)
      ensures r.StoreFailed? <==>
                EntryTotalKg(p.poidsSacKg, numBags, numKg) > 0.0 && EntryError(old(db.products), old(db.shops), p.id, shopId, mtype).Some?
      ensures r.StoreFailed? ==> Some(r.error) == EntryError(old(db.products), old(db.shops), p.id, shopId, mtype)
      ensures r.Recorded? ==> saved && shopId.Some? && ParseMType(mtype).Some?
      ensures r.Recorded? ==>
                db.movements == old(db.movements)
                  + [Movement(old(db.movementSeq) + 1, p.id, shopId.value, ParseMType(mtype).value,
                              SignedTotal(mtype, EntryTotalKg(p.poidsSacKg, numBags, numKg)),
                              PriceOrNull(priceKg), PriceOrNull(priceSac),
                              Some(EntryCost(numBags, numKg, priceSac, priceKg)), Strip(noteText), now)]
      ensures r.Recorded? ==> (db.movements[|db.movements| - 1].qtyKg < 0.0 <==> mtype == "OUT")
    {
      var qtyKgTotal := ComputeTotal(p.poidsSacKg, numBags, numKg);
      if qtyKgTotal <= 0.0 {
        return NonPositiveTotal;
      }
      var cost := ComputeCost(numBags, numKg, priceSac, priceKg);
      var note := Strip(noteText);
      RecordedSignMatchesType(mtype, qtyKgTotal);
      if mtype == "OUT" {
        qtyKgTotal := -qtyKgTotal;
      }
      r := Submit(p.id, shopId, mtype, qtyKgTotal, PriceOrNull(priceKg), PriceOrNull(priceSac), cost, note, now);
    }

    /** The `add_movement` call; a shop label missing from the list gives a
        NULL shop id, which the NOT NULL column refuses. */
    method Submit(productId: int, shopId: Option<int>, mtype: string, qtyKg: real, unitPriceKg: Option<real>,
                  unitPriceSac: Option<real>, cost: real, note: string, now: string) returns (r: EntryOutcome)
      requires db.Valid()
      modifies db, this`saved
      ensures db.Valid()
      ensures r.Recorded? || r.StoreFailed?
      ensures db.shops == old(db.shops) && db.products == old(db.products) && db.shopSeq == old(db.shopSeq) && db.productSeq == old(db.productSeq)
      ensures r.Recorded? ==> db.movementSeq == old(db.movementSeq) + 1
      ensures r.StoreFailed? ==> db.Snapshot() == old(db.Snapshot()) && saved == old(saved)
      ensures r.StoreFailed? <==> EntryError(old(db.products), old(db.shops), productId, shopId, mtype).Some?
      ensures r.StoreFailed? ==> Some(r.error) == EntryError(old(db.products), old(db.shops), productId, shopId, mtype)
      ensures r.Recorded? ==> saved && shopId.Some? && ParseMType(mtype).Some?
      ensures r.Recorded? ==>
                db.movements == old(db.movements)
                  + [Movement(old(db.movementSeq) + 1, productId, shopId.value, ParseMType(mtype).value, qtyKg,
                              unitPriceKg, unitPriceSac, Some(cost), note, now)]
    {
      if shopId.None? {
        return StoreFailed(NotNullViolation);
      }
      var out := db.AddMovement(productId, shopId.value, mtype, qtyKg, unitPriceKg, unitPriceSac, cost, note, now);
      if out.Fail? {
        return StoreFailed(out.error);
      }
      saved := true;
      return Recorded;
    }
  }

  // ---- LoginDialog ----

  datatype Role = Admin | Secretaire {
    /** The access code, which is also the role name handed to the application. */
    function Code(): string {
      match this
      case Admin => "a"
      case Secretaire => "secretaire"
    }
  }

  /** The role an access code opens, after stripping surrounding blanks. */
  function RoleFor(code: string): (r: Option<Role>)
    ensures r.Some? <==> Strip(code) == "a" || Strip(code) == "secretaire"
    ensures r.Some? ==> r.value.Code() == Strip(code)
  {
    var c := Strip(code);
    if c == "a" then Some(Admin) else if c == "secretaire" then Some(Secretaire) else None
  }

  /** Each role is opened by its own code and by no other. */
  lemma RoleCodesRoundTrip(role: Role)
    ensures RoleFor(role.Code()) == Some(role)
  {
    StripUnpadded(role.Code());
  }

  class LoginDialog {
    var codeVar: string
    /** The role passed to the application's login callback, if any. */
    var loggedIn: Option<Role>
    var open: bool

    constructor ()
      ensures codeVar == "" && loggedIn.None? && open
    {
      codeVar := "";
      loggedIn := None;
      open := true;
    }

    /** `save`: a known code logs in and closes the dialog; anything else
        clears the field and leaves the dialog open. */
    method Save()
      modifies this
      ensures RoleFor(old(codeVar)).Some? ==> loggedIn == RoleFor(old(codeVar)) && !open && codeVar == old(codeVar)
      ensures RoleFor(old(codeVar)).None? ==> codeVar == "" && loggedIn == old(loggedIn) && open == old(open)
    {
      var code := Strip(codeVar);
      if code == "a" {
        loggedIn := Some(Admin);
        open := false;
      } else if code == "secretaire" {
        loggedIn := Some(Secretaire);
        open := false;
      } else {
        codeVar := "";
      }
    }
  }
}
