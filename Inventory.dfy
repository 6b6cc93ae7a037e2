/** The inventory page's "adjust to target" action (ui/inventory.py):
    the counted quantity is turned into one ADJ movement on the main shop
    whose quantity is the difference with the recorded stock. */
module Inventory {
  import opened Wrappers
  import opened Text
  import opened Units
  import opened Records
  import opened Aggregates
  import opened Ledger
  import opened Dialogs

  /** Below this difference (1e-9 kg) the stock already matches the count. */
  const Tolerance: real := 0.000000001

  /** The count typed in, read leniently: blank or unreadable text is 0. */
  function Count(text: string): (r: real)
    ensures r != 0.0 ==> ParseDecimal(Strip(ReplaceCommas(text))) == Some(r)
  {
    SafeFloat(Some(text), 0.0)
  }

  /** The counted target in kilograms: the count, times the bag weight when
      counted in bags. None when bags are asked for a product the store does
      not know, where the page fails on the missing product's bag weight. */
  function TargetKg(count: real, unit: string, product: Option<Product>): (r: Option<real>)
    ensures r.None? <==> unit == "sac" && product.None?
    ensures unit != "sac" ==> r == Some(count)
    ensures unit == "sac" && product.Some? ==> r == Some(count * product.value.poidsSacKg)
  {
    if unit == "sac" then
      if product.None? then None else Some(count * product.value.poidsSacKg)
    else Some(count)
  }

  /** A whole number of bags counted reads as that many bag weights. */
  lemma TargetInBags(n: nat, p: Product)
    ensures TargetKg(Count(NatText(n)), "sac", Some(p)) == Some(n as real * p.poidsSacKg)
  {
    CountOfNatural(n);
    TargetOfCountInBags(Count(NatText(n)), n as real, p);
  }

  lemma TargetOfCountInBags(c: real, n: real, p: Product)
    requires c == n
    ensures TargetKg(c, "sac", Some(p)) == Some(n * p.poidsSacKg)
  {
    var r := TargetKg(c, "sac", Some(p));
    assert r.Some? && r.value == n * p.poidsSacKg;
  }

  lemma CountOfNatural(n: nat)
    ensures Count(NatText(n)) == n as real
  {
    SafeFloatReadsNatural(n, 0.0);
  }

  /** A whole number of kilograms counted reads as itself. */
  lemma TargetInKg(n: nat, product: Option<Product>)
    ensures TargetKg(Count(NatText(n)), "kg", product) == Some(n as real)
  {
    CountOfNatural(n);
  }

  /** An entry that is not a number counts as zero, in either unit. */
  lemma UnreadableTargetIsZero(text: string, unit: string, p: Product, i: nat)
    requires i < |Strip(ReplaceCommas(text))| && !IsNumberChar(Strip(ReplaceCommas(text))[i])
    ensures TargetKg(Count(text), unit, Some(p)) == Some(0.0)
  {
    SafeFloatRejectsNonNumeric(text, 0.0, i);
  }

  /** The correction to record, or None when the stock is already within
      the tolerance of the target. */
  function Delta(current: real, target: real): (r: Option<real>)
    ensures r.None? <==> -Tolerance < target - current < Tolerance
    ensures r.Some? ==> current + r.value == target && (r.value <= -Tolerance || r.value >= Tolerance)
  {
    var d := target - current;
    if (if d < 0.0 then -d else d) < Tolerance then None else Some(d)
  }

  /** The row the page appends: an ADJ on the main shop, no unit prices,
      the store's default cost of 0. */
  function AdjustmentRow(id: int, pid: int, delta: real, note: string, now: string): (m: Movement)
    ensures m.productId == pid && m.shopId == DefaultShopId && m.mtype == ADJ && m.qtyKg == delta
    ensures m.unitPriceKg.None? && m.unitPriceSac.None? && m.cost == Some(0.0)
  {
    Movement(id, pid, DefaultShopId, ADJ, delta, None, None, Some(0.0), note, now)
  }

  /** Appending the correction brings the product's stock on the main shop
      exactly to the target, leaves every other stock alone, and a second
      adjustment to the same target then finds nothing to do. */
  lemma AdjustmentReachesTarget(ms: seq<Movement>, id: int, pid: int, target: real, note: string, now: string)
    requires Delta(Stock(ms, pid, DefaultShopId), target).Some?
    ensures var after := ms + [AdjustmentRow(id, pid, Delta(Stock(ms, pid, DefaultShopId), target).value, note, now)];
            && Stock(after, pid, DefaultShopId) == target
            && Delta(Stock(after, pid, DefaultShopId), target).None?
            && forall p, s :: (p, s) != (pid, DefaultShopId) ==> Stock(after, p, s) == Stock(ms, p, s)
  {
    var m := AdjustmentRow(id, pid, Delta(Stock(ms, pid, DefaultShopId), target).value, note, now);
    StockAfterAppend(ms, m, pid, DefaultShopId);
    forall p, s | (p, s) != (pid, DefaultShopId)
      ensures Stock(ms + [m], p, s) == Stock(ms, p, s)
    {
      StockAfterAppend(ms, m, p, s);
    }
  }

  /** The adjustment's insert is refused exactly when a foreign key does not
      resolve: the product is gone or the main shop was deleted. */
  predicate AdjustRefused(products: seq<Product>, shops: seq<Shop>, pid: int) {
    FindProduct(products, pid).None? || FindShop(shops, DefaultShopId).None?
  }

  /** The result of pressing "Ajuster". */
  datatype AdjustOutcome =
    | NoSelection
    | OpenedAdjDialog
    | MissingProduct
    | AlreadyAtTarget
    | Adjusted(delta: real)
    | Failed(error: DbError)

  class InventoryPage {
    const db: Database
    /** The product id shown in the focused row of the table, if any. */
    var selection: Option<int>
    var targetText: string
    var unit: string
    /** The ADJ movement dialog opened for a blank target. */
    var adjDialog: Option<MovementDialog>

    constructor (db: Database)
      ensures this.db == db && selection.None? && targetText == "" && unit == "kg" && adjDialog.None?
    {
      this.db := db;
      selection := None;
      targetText := "";
      unit := "kg";
      adjDialog := None;
    }

    /** `adjust_selected`; `note` stands for the rendered note text. */
    method AdjustSelected(note: string, now: string) returns (r: AdjustOutcome)
      requires db.Valid()
      modifies db, this`targetText, this`adjDialog
      ensures db.Valid()
      ensures db.shops == old(db.shops) && db.products == old(db.products) && db.shopSeq == old(db.shopSeq) && db.productSeq == old(db.productSeq)
      ensures r.Adjusted? ==> db.movementSeq == old(db.movementSeq) + 1
      ensures r.NoSelection? <==> selection.None?
      ensures !r.Adjusted? ==> db.Snapshot() == old(db.Snapshot()) && targetText == old(targetText)
      ensures !r.OpenedAdjDialog? ==> adjDialog == old(adjDialog)
      ensures selection.Some? ==>
                var pid := selection.value;
                var product := FindProduct(old(db.products), pid);
                var current := Stock(old(db.movements), pid, DefaultShopId);
                var target := TargetKg(Count(old(targetText)), unit, product);
                && (r.OpenedAdjDialog? <==> Strip(old(targetText)) == "")
                && (r.OpenedAdjDialog? ==> adjDialog.Some? && fresh(adjDialog.value) && adjDialog.value.db == db
                                           && adjDialog.value.product == product && adjDialog.value.mtypeVar == "ADJ"
                                           && adjDialog.value.shopVar == DefaultShopLabel)
                && (r.MissingProduct? <==> Strip(old(targetText)) != "" && target.None?)
                && (r.AlreadyAtTarget? <==>
                      Strip(old(targetText)) != "" && target.Some? && Delta(current, target.value).None?)
                && (r.Failed? <==>
                      Strip(old(targetText)) != "" && target.Some? && Delta(current, target.value).Some?
                      && AdjustRefused(old(db.products), old(db.shops), pid))
                && (r.Failed? ==> r.error == ForeignKeyViolation)
                && (r.Adjusted? ==>
                      target.Some? && Delta(current, target.value) == Some(r.delta)
                      && db.movements == old(db.movements)
                           + [AdjustmentRow(old(db.movementSeq) + 1, pid, r.delta, note, now)]
                      && Stock(db.movements, pid, DefaultShopId) == target.value
                      && targetText == "")
    {
      if selection.None? {
        return NoSelection;
      }
      var pid := selection.value;
      var product := FindProduct(db.products, pid);
      if Strip(targetText) == "" {
        var d := new MovementDialog(db, product, Some("ADJ"), DefaultShopLabel);
        adjDialog := Some(d);
        return OpenedAdjDialog;
      }
      r := Adjust(pid, product, Count(targetText), unit, note, now);
    }

    /** The part of `adjust_selected` after a non-blank target was read. */
    method Adjust(pid: int, product: Option<Product>, count: real, unit: string, note: string, now: string)
      returns (r: AdjustOutcome)
      requires db.Valid() && product == FindProduct(db.products, pid)
      modifies db, this`targetText
      ensures db.Valid()
      ensures db.shops == old(db.shops) && db.products == old(db.products) && db.shopSeq == old(db.shopSeq) && db.productSeq == old(db.productSeq)
      ensures r.Adjusted? ==> db.movementSeq == old(db.movementSeq) + 1
      ensures !r.Adjusted? ==> db.Snapshot() == old(db.Snapshot()) && targetText == old(targetText)
      ensures r.MissingProduct? || r.AlreadyAtTarget? || r.Adjusted? || r.Failed?
      ensures r.MissingProduct? <==> TargetKg(count, unit, product).None?
      ensures r.AlreadyAtTarget? <==>
                TargetKg(count, unit, product).Some?
                && Delta(Stock(old(db.movements), pid, DefaultShopId), TargetKg(count, unit, product).value).None?
      ensures r.Failed? ==> r.error == ForeignKeyViolation
      ensures r.Failed? <==>
                TargetKg(count, unit, product).Some?
                && Delta(Stock(old(db.movements), pid, DefaultShopId), TargetKg(count, unit, product).value).Some?
                && AdjustRefused(old(db.products), old(db.shops), pid)
      ensures r.Adjusted? ==>
                TargetKg(count, unit, product).Some?
                && Delta(Stock(old(db.movements), pid, DefaultShopId), TargetKg(count, unit, product).value) == Some(r.delta)
                && db.movements == old(db.movements) + [AdjustmentRow(old(db.movementSeq) + 1, pid, r.delta, note, now)]
                && Stock(db.movements, pid, DefaultShopId) == TargetKg(count, unit, product).value
                && targetText == ""
    {
      var current := Stock(db.movements, pid, DefaultShopId);
      var target := TargetKg(count, unit, product);
      if target.None? {
        return MissingProduct;
      }
      var delta := Delta(current, target.value);
      if delta.None? {
        return AlreadyAtTarget;
      }
      r := Write(pid, current, target.value, delta.value, note, now);
    }

    /** The `add_movement` call and the reset of the entry. */
    method Write(pid: int, current: real, target: real, delta: real, note: string, now: string)
      returns (r: AdjustOutcome)
      requires db.Valid() && current == Stock(db.movements, pid, DefaultShopId) && current + delta == target
      modifies db, this`targetText
      ensures db.Valid()
      ensures db.shops == old(db.shops) && db.products == old(db.products) && db.shopSeq == old(db.shopSeq) && db.productSeq == old(db.productSeq)
      ensures r.Adjusted? ==> db.movementSeq == old(db.movementSeq) + 1
      ensures r.Adjusted? || r.Failed?
      ensures r.Failed? <==> AdjustRefused(old(db.products), old(db.shops), pid)
      ensures r.Failed? ==> r.error == ForeignKeyViolation && db.Snapshot() == old(db.Snapshot())
                            && targetText == old(targetText)
      ensures r.Adjusted? ==>
                r.delta == delta
                && db.movements == old(db.movements) + [AdjustmentRow(old(db.movementSeq) + 1, pid, delta, note, now)]
                && Stock(db.movements, pid, DefaultShopId) == target
                && targetText == ""
    {
      assert ParseMType("ADJ") == Some(ADJ);
      var out := db.AddMovement(pid, DefaultShopId, "ADJ", delta, None, None, 0.0, note, now);
      if out.Fail? {
        return Failed(out.error);
      }
      targetText := "";
      return Adjusted(delta);
    }
  }
}
