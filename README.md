# Provende ledger core in Dafny

Provende keeps the stock of a livestock-feed retailer. There are three
tables: shops, products (sold in bags of a fixed weight, or by the
kilogram) and an append-only log of movements. Each movement is an IN
(receipt), an OUT (sale) or an ADJ (correction) with a signed quantity in
kilograms. Stock is never stored: every figure is derived from the log.

This project models the following and proves their contracts:

- **The store** (`db.py`, class `Database`), as a Dafny class over
  sequences. Every write keeps the table invariants:
  - unique ids and labels;
  - SKUs unique when present;
  - foreign keys that resolve.
- **The read side**, as pure functions with lemmas:
  - stock as a signed sum;
  - listings that filter and sort;
  - low-stock detection;
  - weighted-average cost of goods sold.
- **The unit conversions and the lenient number reader** of `utils.py`.
- **The entry rules inside the dialogs** of `ui/dialogs.py`:
  - product form normalisation;
  - movement quantity, cost and sign;
  - the edit-mode split of a stored quantity;
  - login codes.
- **The "adjust to target" action** of `ui/inventory.py`. It appends one ADJ
  movement, after which the stock equals the counted target.

Modules, one per concern, listed in dependency order:

- `Wrappers`: Option and Outcome.
- `Text`: `strip`, ASCII case folding for LIKE, BINARY ordering.
- `Dates`: SQLite's `date()` on text.
- `Sums`: real sums over sequences, by key.
- `Sorting`: a stable insertion sort standing for `ORDER BY`.
- `Units`: `utils.py`.
- `Records`: row types and table-level operations.
- `Aggregates`: stock, windows, `list_movements`.
- `Costing`: `total_sales_and_cogs`.
- `Ledger`: the `Database` class.
- `Dialogs`: `ui/dialogs.py`.
- `Inventory`: `ui/inventory.py`.

Modelling choices:

- **Floats.** Python floats are modelled as exact `real`s.
- **Store failures.** SQLite constraint failures are `Outcome.Fail` values naming the violated constraint, with nothing written.
- **Time.** The creation timestamp of a movement is a parameter (`now`).
- **Database invariant.** `Database.Valid()` is the invariant every method keeps. `Snapshot()` gives the whole store as one value, so a method can state that it changed nothing.

Two details of the code shape the model:

- **Bootstrap.** The code seeds shop 1 "Boutique Principale" with
  `INSERT OR IGNORE`, so the insert is skipped when either id 1 or that
  label already exists. It does not test whether the table is empty.
- **Zero remainder.** `kg_to_bag_repr` tests the remainder with `> 0`,
  not with a tolerance. A zero quantity renders as the kilogram-only form.

## Model

| member | source | states |
|---|---|---|
| Text.StripLeftSpec | db.py:113 | the left strip drops exactly the leading run of whitespace: what it removes is all whitespace and what is left does not start with whitespace |
| Text.StripRightSpec | db.py:113 | the right strip drops exactly the trailing run of whitespace: what it removes is all whitespace and what is left does not end with whitespace |
| Text.StripSpec | db.py:113 | `strip()` removes only leading and trailing whitespace (Python's `str.isspace` set): the result is a slice of the input, both removed ends are whitespace, and the result neither starts nor ends with whitespace |
| Text.Lower | db.py:114 | LIKE's case folding maps each character on its own, keeping the length |
| Text.ContainsAt | db.py:114 | `'%q%'` matches exactly when the pattern occurs at some position of the text |
| Text.LexLeTotal | db.py:118 | any two labels are comparable under BINARY collation |
| Text.LexLeAntisymmetric | db.py:118 | two labels that are each ordered before the other are equal |
| Text.LexLeTransitive | db.py:118 | the label order is transitive |
| Sorting.SortBy | db.py:118 | `ORDER BY` returns a permutation of the selected rows that is sorted under the key order |
| Sorting.SortedPairwise | db.py:118 | in a sorted result, any earlier row is ordered before any later one, not just neighbours |
| Units.BagsToKg | utils.py:23-24 | bags times the weight: non-negative for a non-negative count and weight, and dividing by a non-zero weight gives the count back |
| Units.KgToBags | utils.py:26-32 | the bags and remainder add back to the quantity; with no usable weight the result is (0, qty); otherwise 0 <= remainder < weight |
| Units.KgToBagsUnique | utils.py:30-32 | any split with a remainder in [0, weight) is the one `kg_to_bags` returns |
| Units.KgToBagsOfWholeBags | utils.py:23-32 | `kg_to_bags(bags_to_kg(n, w), w)` is n bags with nothing left, for every whole n and positive w |
| Units.KgToBagRepr | utils.py:11-21 | the rendering is kilograms only when the weight is <= 0; otherwise it is "n sac(s) + r kg", "n sac(s)" or remainder-only, decided by the `kg_to_bags` split and carrying its numbers |
| Units.ReprDenotesQuantity | utils.py:11-21 | for a non-negative quantity, the rendering reads back as exactly that quantity |
| Units.NegativeQuantityShowsRemainder | utils.py:15-21 | a negative quantity with a positive weight renders in the remainder-only form, showing a non-negative remainder below the weight that differs from the quantity |
| Units.ReprExamples | utils.py:11-21 | 90 kg in 50 kg bags is 1 bag + 40 kg, 100 kg is 2 bags, -30 kg shows 20 kg, and a zero weight shows the kilograms |
| Units.ReplaceCommas | utils.py:7 | every ',' becomes '.', and every other character is unchanged |
| Units.ParseDecimal | utils.py:7 | what `float()` accepts here is non-empty and made only of sign, digit and point characters |
| Units.SafeFloat | utils.py:3-9 | `None` gives the default, and any other result is the number the comma-replaced, stripped text reads as |
| Units.SafeFloatRejectsNonNumeric | utils.py:3-9 | text containing a character outside the modelled decimal grammar (after comma replacement and stripping) yields the default |
| Units.SafeFloatReadsNatural | utils.py:3-9 | `safe_float(str(n))` is n for every natural n |
| Units.SafeFloatReadsDecimalComma | utils.py:3-9 | " 12,5 " style text (blank-padded, decimal comma) reads as the integer part plus the fraction |
| Records.ParseMType | db.py:42 | the type column accepts exactly "IN", "OUT" and "ADJ", and the stored type's name is the text given |
| Records.FindBy | db.py:122-124 | a primary-key lookup returns a row with that key, or None exactly when no row has it |
| Records.FindShop | db.py:49-50 | the shop key lookup returns a row with that id, or None exactly when no row has it |
| Records.ShopsById | db.py:73-75 | `ORDER BY id` returns every shop, with ids ascending |
| Records.FindProduct | db.py:122-124 | the lookup returns a row with that id, or None exactly when no row has it |
| Records.RenamedShops | db.py:81-83 | renaming keeps the length and every id |
| Records.WithoutShop | db.py:89 | the rows left are exactly those whose id differs |
| Records.ReplacedProduct | db.py:100-106 | the update keeps the length of the table |
| Records.ReplacedProductFind | db.py:100-106 | after the update the id finds the new row when the product existed, and every other id finds what it found before |
| Records.ArchivedProducts | db.py:108-110 | archiving keeps the length of the table |
| Records.ArchiveIsIdempotent | db.py:108-110 | archiving twice equals archiving once; other rows are untouched; the archived rows differ only by `actif = 0` |
| Records.BlankQueryMatchesAll | db.py:113 | an empty or blank query matches every product, as the '%' pattern does |
| Records.LibelleOrderTotal | db.py:118 | ordering by label is a total preorder, so the sort is defined |
| Records.Selected | db.py:114-117 | the WHERE clause keeps each row, with its multiplicity, exactly when it matches the query and is active or inactive rows are wanted |
| Records.ListProducts | db.py:112-120 | `list_products` returns exactly the matching products (by multiset and by membership, inactive ones excluded unless asked), sorted by label |
| Records.ListProductsOrdered | db.py:118 | any two listed products appear in label order |
| Dates.DaysIn | db.py:152 | every month has 28 to 31 days; February has 29 exactly in a Gregorian leap year |
| Dates.Two | db.py:152 | a two-digit field is read only when both characters are digits and the value lies in its range |
| Dates.Four | db.py:152 | a year field is four digits, 0000 to 9999 |
| Dates.ParseZone | db.py:152 | a timezone is absent, "Z", or an offset of at most 14:59 either way |
| Dates.ParseTime | db.py:152 | a time has an hour from 0 to 24, a minute from 0 to 59 and an offset of at most 14:59 |
| Dates.ParseStamp | db.py:152 | what is read is a date with month 1-12 and day 1-31 and/or a time within those ranges |
| Dates.Carry | db.py:152 | carrying a day past the month's end gives a real calendar day, and a real day is left alone |
| Dates.AddDay | db.py:152 | moving a real day by -1, 0 or 1 gives a real day, and 0 moves nothing |
| Dates.Resolve | db.py:152 | the day denoted is a real calendar day whose year is at most 9999 |
| Dates.DateOf | db.py:152-156 | `date()`: text that is neither a date nor a time is NULL, and a result is a ten-character "YYYY-MM-DD" (eleven with a sign for year -1) |
| Dates.DateOfIdempotent | db.py:152-156 | `date()` of an unsigned date it returned gives that date again |
| Dates.DateOfDate | db.py:155 | a written calendar date is its own `date()`, so a "YYYY-MM-DD" bound compares as itself |
| Dates.DateOfTimestamp | db.py:129 | the `date()` of a stored `isoformat(timespec="seconds")` timestamp is its date part |
| Dates.DateOfBadMonth | db.py:152 | a month of 13 makes the text NULL |
| Dates.DateOfTrailingText | db.py:152 | text after the date that is not a time makes the text NULL |
| Dates.DateOfCarries | db.py:152 | "2024-02-30" is 2024-03-01 |
| Dates.DateOfZone | db.py:152 | an offset of -01:00 moves 2023-12-31 23:30 to 2024-01-01 |
| Dates.DateOfHour24Early | db.py:152 | an hour of 24 leaves the 15th as it is |
| Dates.DateOfHour24Late | db.py:152 | an hour of 24 moves the 31st to the 1st of the next month |
| Dates.DateOfYearLimit | db.py:152 | a day after 9999-12-31 is NULL |
| Dates.DateOfBareTime | db.py:152 | a time alone is read on 2000-01-01 |
| Aggregates.MovementsOf | db.py:173 | the movements of a (product, shop) pair are exactly the log entries with both ids |
| Aggregates.StockIsSumOfQuantities | db.py:171-176 | stock equals the sum of `qty_kg` over that pair's movements |
| Aggregates.StockWithoutMovements | db.py:173-176 | with no movement for the pair, the stock is 0 |
| Aggregates.StockOrderIndependent | db.py:171-176 | two logs holding the same movements in any order give the same stock |
| Aggregates.StockAfterAppend | db.py:126-131 | appending one movement changes its own pair's stock by its quantity and no other pair's |
| Aggregates.TotalStockIsSumOverProducts | db.py:186-188 | a shop's total over all movements is the sum of the per-product stocks over every product the log refers to |
| Aggregates.DateFromExample | db.py:151-153 | a lower bound on the 1st keeps a timestamp of the 31st |
| Aggregates.DateToExample | db.py:154-156 | an upper bound on a day keeps that day's last second |
| Aggregates.DateToExcludes | db.py:154-156 | an upper bound on a day drops the next day's first second |
| Aggregates.DateBoundsExample | db.py:151-156 | a January window includes "2024-01-31T23:59:59" and excludes "2024-02-01T00:00:00" |
| Aggregates.Window | db.py:139-165 | the joined and filtered log keeps each movement, with its multiplicity, exactly when both joins succeed and every supplied filter holds |
| Aggregates.JoinRows | db.py:159-163 | each row carries its movement, in order |
| Aggregates.RowOrderTotal | db.py:166 | "created_at DESC, id DESC" is a total preorder |
| Aggregates.RowOrderTransitive | db.py:166 | that order is transitive |
| Aggregates.ListMovements | db.py:133-169 | `list_movements` returns exactly the window's movements, each satisfying every filter, sorted by date then id, newest first |
| Aggregates.ListMovementsOrdered | db.py:166 | of any two listed movements, the earlier has the later timestamp, or the same timestamp and the larger id |
| Costing.Groups | db.py:236 | `GROUP BY p.id` has one group per product of the window, each exactly once |
| Costing.SalesAreOutCosts | db.py:228 | total sales equal the sum of the OUT movements' costs, a NULL cost counting 0 |
| Costing.QtyInNonNegative | db.py:229-231 | the IN and OUT kilogram totals are never negative |
| Costing.CogsWithoutPurchases | db.py:255-258 | a product with no IN movement has zero COGS, whatever was sold |
| Costing.NoPurchasesNoCogs | db.py:241-258 | a window with no IN movement has zero total COGS |
| Costing.WithoutAdj | db.py:228-231 | the window without its ADJ rows keeps exactly the other movements |
| Costing.AdjNeverContributes | db.py:228-231 | removing every ADJ movement changes neither sales nor COGS |
| Costing.ExampleStock | db.py:171-176 | IN 120 kg then OUT 30 kg leaves 90 kg |
| Costing.ExampleTotals | db.py:225-237 | that window has one group, whose totals are (4500, 30, 12000, 120) |
| Costing.WorkedExample | db.py:199-260 | for that window: stock 90, sales 4500, COGS 12000/120 x 30 = 3000, profit 1500 |
| Ledger.StockRows | db.py:178-184 | one (product, stock) pair per listed product, in listing order |
| Ledger.LowStockOf | db.py:190-197 | an item is reported exactly when its product is listed and its current stock is at or below the threshold (equality counts); the item carries that stock |
| Ledger.AccumulateTotals | db.py:241-260 | the per-group loop returns the window's sales and COGS, and the sales equal the sum of OUT costs |
| Ledger.ShopInsertOk | db.py:22-25 | a shop with a new id and an unused label keeps ids and labels unique |
| Ledger.LinksAfterInsert | db.py:49-50 | adding shops or products never breaks a movement's foreign keys |
| Ledger.RenameOk | db.py:81-83 | a rename that keeps labels unique keeps the table well formed and every link valid |
| Ledger.WithoutShopOk | db.py:85-91 | deleting a shop keeps the shop table well formed |
| Ledger.LinksAfterDelete | db.py:85-91 | deleting a shop no movement uses keeps every link valid |
| Ledger.ProductInsertOk | db.py:93-98 | a product with a fresh id and an unused SKU keeps ids and SKUs unique |
| Ledger.ReplaceOk | db.py:100-106 | rewriting a row in place, with an SKU no other row holds, keeps the table well formed and every link valid |
| Ledger.ArchiveOk | db.py:108-110 | archiving keeps the table well formed and every link valid |
| Ledger.MovementInsertOk | db.py:38-51 | a movement with the next id whose keys resolve keeps the log well formed |
| Ledger.Database.constructor | db.py:19-54 | a new store has empty product and movement tables and the one default shop |
| Ledger.Database.InitDb | db.py:53 | afterwards shop 1 or its label is present; if either already was, nothing changes, so running it again changes nothing; otherwise exactly shop 1 is added |
| Ledger.Database.ListShops | db.py:73-75 | every shop, with ids ascending |
| Ledger.Database.AddShop | db.py:77-79 | fails with a UNIQUE violation exactly when the label is taken; otherwise appends the shop with the next id; other tables unchanged |
| Ledger.Database.RenameShop | db.py:81-83 | fails exactly when the shop exists and another shop has the label; otherwise only that shop's label changes |
| Ledger.Database.DeleteShop | db.py:85-91 | returns false and deletes nothing exactly when some movement uses the shop; otherwise removes exactly that shop |
| Ledger.Database.AddProduct | db.py:93-98 | fails exactly when the SKU is present and taken; otherwise appends the product, active, with the next id |
| Ledger.Database.UpdateProduct | db.py:100-106 | fails exactly when the row exists and its new SKU belongs to another product; otherwise rewrites every column of that row, including `actif` |
| Ledger.Database.ArchiveProduct | db.py:108-110 | sets `actif = 0` on that product only; every other table unchanged |
| Ledger.Database.AddMovement | db.py:126-131 | CHECK violation for an unknown type, FK violation for a missing product or shop, nothing written on failure; otherwise exactly one row with the next id is appended, that pair's stock grows by `qty_kg`, and every other stock and table is unchanged |
| Ledger.Database.GetProduct | db.py:122-124 | the row with that id, or None exactly when there is none |
| Ledger.Database.StockKg | db.py:171-176 | the signed sum of the pair's movement quantities |
| Ledger.Database.TotalStockKg | db.py:186-188 | the shop's total is the sum of every product's stock, archived ones included |
| Ledger.Database.ListProductsOf | db.py:112-120 | exactly the products matching the query, inactive ones only when asked |
| Ledger.Database.ListMovementsOf | db.py:133-169 | exactly the movements of the filtered window |
| Ledger.Database.AllStocks | db.py:178-184 | the active products by label, each with its stock in the shop |
| Ledger.Database.StocksOf | db.py:180-184 | the loop pairs each listed product, in order, with its stock in the shop |
| Ledger.Database.LowStockProducts | db.py:190-197 | exactly the active products whose stock is at or below the threshold, each with that stock |
| Ledger.Database.TotalSalesAndCogs | db.py:199-260 | the window's sales and weighted-average COGS, with sales equal to the sum of OUT costs; the type argument does not enter the result |
| Dialogs.Nullable | ui/dialogs.py:52 | a blank field becomes NULL; otherwise the value is the stripped, non-empty text |
| Dialogs.ProductSave | ui/dialogs.py:43-68 | a blank label is rejected before any store call; a new product is inserted; an edited one is updated with its own id and its `actif` flag kept |
| Dialogs.ProductSaveNormalises | ui/dialogs.py:44-67 | the store receives a stripped, non-blank label; NULL for a blank SKU and the stripped SKU otherwise; each number read by `safe_float` from the stripped field |
| Dialogs.NewProductDefaults | ui/dialogs.py:23-30 | the untouched new-product form stores a 50 kg bag, zero prices, a zero threshold and no SKU |
| Dialogs.SubmitProduct | ui/dialogs.py:49-68 | fails with a UNIQUE violation exactly when the SKU is given and another product holds it (for an update, only when the edited row still exists); a failure changes nothing; otherwise an update rewrites the edited row and an insert appends the new row; shops, movements and their counters are unchanged |
| Dialogs.ProductDialog.constructor | ui/dialogs.py:10-41 | the dialog opens on the given product and form |
| Dialogs.ProductDialog.Save | ui/dialogs.py:43-73 | refused exactly when the label is blank; a store error happens exactly on an SKU conflict and leaves the store and the window as they were; success writes the row and closes the window; shops, movements and their counters are unchanged |
| Dialogs.ProductDialog.Dispatch | ui/dialogs.py:48-73 | the same, for an already normalised command: a store error exactly on an SKU conflict; shops, movements and their counters are unchanged |
| Dialogs.PriceOrNull | ui/dialogs.py:305-306 | a unit price is stored exactly when it is positive, and then unchanged |
| Dialogs.EntryTotalKg | ui/dialogs.py:249-253 | the total is the loose kilograms exactly when no bags count; otherwise `bags_to_kg` of the bags is added |
| Dialogs.EntryCost | ui/dialogs.py:266-271 | the cost is zero exactly when neither the bags nor the kilograms have a positive quantity and price |
| Dialogs.ComputeTotal | ui/dialogs.py:249-253 | bags count only for a positive weight and a positive number of bags; loose kilograms always count |
| Dialogs.ComputeCost | ui/dialogs.py:266-276 | the step-by-step cost, with both override branches, always equals the two-term sum |
| Dialogs.SignedTotal | ui/dialogs.py:281-282 | the sign flip for OUT keeps the magnitude |
| Dialogs.RecordedSignMatchesType | ui/dialogs.py:255-282 | for the positive total that passed the check, the stored quantity is negative exactly for OUT, and its magnitude is the total |
| Dialogs.CostNonNegative | ui/dialogs.py:267-276 | the computed cost is never negative |
| Dialogs.EditSplit | ui/dialogs.py:104-109 | bags and kilograms are non-negative, and with no whole bag the kilograms are `abs(qty)` |
| Dialogs.EditSplitRecombines | ui/dialogs.py:101-109 | the edit-mode bags and kilograms are non-negative and total `abs(qty)`; with a positive weight they are `kg_to_bags(abs(qty))`, with kilograms below the weight |
| Dialogs.LabelIndex | ui/dialogs.py:176 | every shop label maps to that shop's id, and nothing else is a key |
| Dialogs.MovementDialog.constructor | ui/dialogs.py:77-176 | a new-movement dialog starts with zero quantities and prices, the given type (IN when none or empty) and shop, and `shop_ids` mapping each shop's label to its id |
| Dialogs.ShopIdFor | ui/dialogs.py:261 | `shop_ids.get(name)` is the id exactly when the name is a key |
| Dialogs.EntryError | db.py:126-131 | the insert is accepted exactly when the shop id is given, the type is IN/OUT/ADJ and both foreign keys resolve |
| Dialogs.MovementDialog.OnSave | ui/dialogs.py:239-316 | nothing written without a product or with a total <= 0; the store refuses exactly when the shop label is unknown (NOT NULL), the type is not IN/OUT/ADJ (CHECK) or a key does not resolve (FK), naming that constraint in that order; otherwise one movement is appended with the signed total, the positive unit prices, the cost and the stripped note; its quantity is negative exactly for OUT; shops, products and their counters are unchanged |
| Dialogs.MovementDialog.Record | ui/dialogs.py:244-313 | the same once a product is selected, failure included; shops, products and their counters are unchanged |
| Dialogs.MovementDialog.Submit | ui/dialogs.py:298-313 | the store refuses exactly when the shop id is missing, the type is invalid or a key does not resolve, with that constraint's error; a recorded entry appends exactly the given row with the next id; nothing is written on failure; shops, products and their counters are unchanged |
| Dialogs.RoleFor | ui/dialogs.py:356-362 | exactly "a" and "secretaire", after stripping, open a role, and the role's name is that code |
| Dialogs.RoleCodesRoundTrip | ui/dialogs.py:356-362 | each role is opened by its own code |
| Dialogs.LoginDialog.constructor | ui/dialogs.py:330-352 | the dialog opens with an empty code and nobody logged in |
| Dialogs.LoginDialog.Save | ui/dialogs.py:354-365 | a known code logs in with its role and closes the dialog; anything else clears the field and changes nothing else |
| Inventory.Count | ui/inventory.py:79 | a non-zero count is the number `float()` reads from the comma-replaced, stripped entry |
| Inventory.TargetKg | ui/inventory.py:79-81 | in kilograms the target is the count; in bags it is the count times the bag weight; it is undefined only for bags of an unknown product |
| Inventory.TargetInBags | ui/inventory.py:79-81 | counting n bags targets n x weight kilograms |
| Inventory.TargetInKg | ui/inventory.py:79 | counting n kilograms targets n kilograms |
| Inventory.UnreadableTargetIsZero | ui/inventory.py:79 | an entry with a character outside the modelled decimal grammar targets 0 kg |
| Inventory.Delta | ui/inventory.py:83-86 | no correction exactly when the target lies within 1e-9 of the stock; otherwise stock + delta = target |
| Inventory.AdjustmentRow | ui/inventory.py:89 | the row is an ADJ of the delta on shop 1, with no unit prices and the default cost 0 |
| Inventory.AdjustmentReachesTarget | ui/inventory.py:83-89 | after the correction the stock equals the target, a second adjustment finds nothing to do, and no other stock moves |
| Inventory.InventoryPage.constructor | ui/inventory.py:44-45 | the page starts with no selection, an empty target and the kg unit |
| Inventory.InventoryPage.AdjustSelected | ui/inventory.py:64-92 | see the list below; shops, products and their counters are unchanged |
| Inventory.InventoryPage.Adjust | ui/inventory.py:79-92 | the same, once a non-blank target is read; the write fails exactly when the product or shop 1 is gone; shops, products and their counters are unchanged |
| Inventory.InventoryPage.Write | ui/inventory.py:89-91 | the ADJ write fails exactly when the product or shop 1 is gone, with an FK violation and nothing written; otherwise it lands the stock on the target and clears the entry; shops, products and their counters are unchanged |

`Inventory.InventoryPage.AdjustSelected` states each outcome:

- **No selection:** nothing is written.
- **Blank target:** nothing is written; the ADJ dialog is opened for the product.
- **Within 1e-9 of the stock:** nothing is written.
- **Product or shop 1 gone:** the insert fails with an FK violation and nothing is written.
- **Otherwise:** exactly one ADJ row of `delta = target - stock` is appended on shop 1. Afterwards `stock_kg(pid, 1)` equals the target and the entry is cleared.

## Left out

SQLite and the user interface:

- The SQLite plumbing (connection, PRAGMAs, commits) and `_migrate_db`. These are schema I/O with no behaviour to state.
- `update_movement` and the edit branch of `on_save` that calls it. `db.py` does not define it, so that branch raises, and movements are append-only in the model.
- `Dialogs.EditSplitRecombines` models code no run reaches: the edit branch calls `db.get_shop` (ui/dialogs.py:98), which `db.py` does not define, before the split, and no caller passes `movement_data` (ui/products.py:120, ui/inventory.py:76, ui/movements.py:188). The split is kept as the arithmetic the constructor states.
- Widgets, message boxes, callbacks, navigation and the other pages. Each action's observable outcome is returned as a value instead.
- CSV export.

SQL semantics:

- LIKE is modelled as a plain substring test with ASCII case folding. `%` and `_` typed inside a query are not treated as wildcards, and non-ASCII characters are not folded.
- `Dates.DateOf`: dates, date-times and bare times are read as SQLite does; numeric text (a Julian day number), "now", "subsec" and years with a leading '-' are read as NULL here, whereas SQLite gives a date. Older SQLite releases that return an over-long day such as "02-30" without carrying it are not modelled.
- Ties under `ORDER BY libelle` and `ORDER BY created_at DESC, id DESC` are broken by table order, which SQLite leaves unspecified. The results are stated up to permutation plus sortedness.
- AUTOINCREMENT exhaustion is not modelled (ids are unbounded integers).

Numbers and text:

- IEEE rounding is not modelled; floats are exact reals.
- `:.2f` formatting is not modelled: `Units.KgToBagRepr` returns the numbers in a datatype rather than text.
- `Units.ParseDecimal`: Python `float()`'s full grammar is not modelled. The model accepts an optional sign and ASCII digits with an optional point; exponents, `inf`, `nan`, digit-group underscores ("1_000") and non-ASCII decimal digits read as unparsable, so `safe_float` returns the default where Python would return a number. `Units.SafeFloat`, `Units.SafeFloatRejectsNonNumeric` and `Inventory.UnreadableTargetIsZero` inherit this: on "1e3" they give the default (0 kg for the target) where Python reads 1000.
- A NULL bag weight (`poids_sac_kg or 0`) is not modelled; the NOT NULL column never holds one. The weight is a plain real, and weights <= 0 take the kilogram-only path.
- The Tk variables that can raise on non-numeric input (`DoubleVar.get()` in `on_save`) are modelled as already-read reals. The ValueError / TclError path is not modelled.

Inputs taken as parameters:

- The timestamp `datetime.now()` is a parameter `now` of `AddMovement` and the callers.
- `Inventory.InventoryPage.AdjustSelected`: the note text, which formats the target and delta with `:.2f`, is a parameter `note`.
- `Inventory.InventoryPage.AdjustSelected`: the focused table row is given as the product id it shows (`selection`).

Crashes modelled as outcomes:

- `Inventory.InventoryPage.AdjustSelected`: counting in bags for a product id the store no longer knows makes the source fail on `prod["poids_sac_kg"]`. The model returns `MissingProduct` with nothing written.
- `Dialogs.MovementDialog.OnSave`: an SQLite error raised by `add_movement` escapes the `except ValueError` in the source. The model returns `StoreFailed` with nothing written and the dialog left open.
- `Inventory.InventoryPage.AdjustSelected`: the `add_movement` call (ui/inventory.py:89) is not inside a `try`, so when shop 1 has been deleted (or the product is gone) the FK failure is an uncaught `IntegrityError`. The model returns `Failed(ForeignKeyViolation)` with nothing written.
