# Retail stock ledger and sale engine — a Dafny model

This project models the core of a desktop shop application. The application keeps a catalog of products and their barcodes. Sales happen by scanning a barcode. Stock is never stored: it is derived from a ledger of signed movements.

The model works over an in-memory store. It is one class, `Schema.Database`, with one `seq` field per table: products, barcodes, inventory movements, sales, earnings log and settings. It also has a fresh-id supply, `nextId`, which stands in for the random UUIDs the application generates.

The services are modelled as follows:
- Services that write become methods on that store. Each method's `modifies` clause names exactly the tables the service writes.
- Read-only services become functions over the tables.

The class invariant `Database.Valid()` holds these constraints:
- **Schema constraints:** primary keys, `UNIQUE` on `barcodes.code` and `UNIQUE` on `products.sku`.
- **Id supply:** every id is below `nextId`.
- **Sale links:** a sale inserts three rows, and those rows stay linked. Each sale has, position for position:
  - its earnings entry, with amount = units × price;
  - its stock movement, of −units.

Every state-changing method keeps `Valid()`.

Modules follow the source files:
- `Types` — the records and enumerations of `src/shared/types.ts`.
- `Sorting` — `ORDER BY … DESC`, as an insertion sort with its permutation, order and sum lemmas.
- `Schema` — `src/backend/db/schema.ts`: the store, its invariant and the default settings row.
- `Products` — `app/src/backend/services/products.ts`.
- `Inventory` — `src/backend/services/inventory.ts`.
- `SettingsService` — `src/backend/services/settings.ts`.
- `Sales` — `src/backend/services/sales.ts` and the `sales:scan` handler of `src/main/index.ts`.
- `Reports` — `app/src/backend/services/reports.ts`.

### Code over documentation

The model follows the code as written, including these behaviours:
- **No foreign keys.** Foreign keys are never switched on, so `deleteProduct` leaves the product's barcodes behind. `addBarcode` and `addStock` accept unknown product ids.
- **No transactions.** `createProduct` is not atomic. A duplicate barcode code fails the call, but the product row and the barcodes inserted before that one stay.
- **Volumes do not always read back as given.**
  - The shared product query coalesces both volume columns to 0. So listed litre products show volume 0, and so does a litre product after any update.
  - An update that switches unit leaves the other unit's column in place.
  - An update that names a unit but gives no volume fails and writes nothing: it passes `undefined` as a statement parameter, and the sql.js driver refuses to bind it (`src/backend/db/connection.ts:57-62`).
- **Quantities are not validated.** Zero or negative units are accepted.
- **The scan handler needs settings.** It reads the settings before selling, so it fails with no settings row even when units are given.
- **The note overrides the sale id.** A sale's movement references the caller's note when one is given, even an empty one, and otherwise the sale id. The `force` flag plays no part in that choice.

## Model

| member | source | states |
|---|---|---|
| Schema.Database.constructor | src/backend/db/schema.ts:3-83 | the freshly created tables are empty and satisfy every declared constraint and the sale links |
| Schema.EnsureDefaultSettings | src/backend/db/schema.ts:85-96 | with a settings row present nothing changes; otherwise exactly the row ('default', 'INR', 1, 5, 'local', no backup path, light) is inserted |
| Schema.EnsureSchema | src/backend/db/schema.ts:3-96 | afterwards exactly one settings row exists, and an existing one is kept |
| Schema.RemoveProduct | src/backend/db/schema.ts:9-21 | deleting a product row keeps the ids increasing and the skus unique |
| Schema.AppendSale | src/backend/services/sales.ts:22-39 | the three rows of one sale, at the next three ids, keep every key and extend both sale links |
| Schema.AppendMovement | src/backend/services/inventory.ts:9-14 | a movement that is not a sale's keeps the keys and the sale links |
| Schema.EarningsEntryUnique | src/backend/db/schema.ts:55-62 | each sale has exactly one earnings entry carrying its id |
| Products.MapRowToProduct | app/src/backend/services/products.ts:145-159 | every field is copied from the row; the volume is the ml column, else the litre column, else 0; the unit is ml exactly when the ml column holds a non-zero value |
| Products.ListProducts | app/src/backend/services/products.ts:5-18 | one product per row in table order, with id, title, category, price, cost, sku, default barcode and both timestamps copied; the volume is the coalesced ml column, and the unit is ml exactly when that is non-zero |
| Products.FindProduct | app/src/backend/services/products.ts:78-79 | the index of the first row with the id, or None exactly when no row has it |
| Products.BarcodeRows | app/src/backend/services/products.ts:38-48 | one barcode row per input entry with consecutive ids, the product id and the type defaulting to 'custom' |
| Products.CreateProduct | app/src/backend/services/products.ts:20-71 | a taken sku fails with nothing written; otherwise the row is appended, and the call succeeds exactly when every code is new and distinct; on failure the product row and the barcodes before the first clash stay |
| Products.InsertBarcodes | app/src/backend/services/products.ts:40-49 | the barcode loop stops at the first taken code and keeps the rows inserted before it |
| Products.UpdateProduct | app/src/backend/services/products.ts:73-102 | an unknown id fails with no change; a unit named without a volume fails to bind with no change; a sku that another row has fails with no change; otherwise exactly that row becomes the patched row |
| Products.DeleteProduct | app/src/backend/services/products.ts:104-107 | exactly the rows with the id disappear, barcodes untouched |
| Products.AddBarcode | app/src/backend/services/products.ts:109-120 | a taken code fails with no change; otherwise one barcode with the next id and type defaulting to 'custom' is appended |
| Products.ProductByBarcode | app/src/backend/services/products.ts:122-143 | None exactly when every barcode with the code is orphaned; otherwise a barcode with the code and the product read from its owner's row |
| Products.ResolveUnique | app/src/backend/services/products.ts:122-143 | under the unique constraints a code on an owned barcode resolves to exactly that barcode and its product |
| Products.ResolveAfterAdd | app/src/backend/services/products.ts:109-143 | after adding a new code to an existing product, scanning it finds that barcode and product |
| Products.CreatedRowReadsBack | app/src/backend/services/products.ts:20-71 | a created product reads back with its fields and volume; its unit reads back unchanged except ml with volume 0, which reads as litres |
| Products.PatchedRowKeeps | app/src/backend/services/products.ts:78-101 | absent patch fields keep their value, id and created_at never change, updated_at becomes now |
| Products.UnitSwitchKeepsMl | app/src/backend/services/products.ts:81-82 | switching a non-zero ml product to litres still reads back as ml with its old volume |
| Products.UpdatedLitreReadsZero | app/src/backend/services/products.ts:78-82 | a litre product updated without a unit reads back with volume 0 |
| Inventory.OnHand | src/backend/services/inventory.ts:64-68 | the on-hand is the sum of the changes of the product's movements over the whole ledger, and 0 without any |
| Inventory.OnHandAppend | src/backend/services/inventory.ts:64-68 | a new movement changes its own product's on-hand by its change and no other product's |
| Inventory.OnHandNoMovements | src/backend/services/inventory.ts:64-68 | a product without movements has 0 on hand |
| Inventory.AddStock | src/backend/services/inventory.ts:5-15 | one movement with the units, the reason (default intake) and no reference is appended, and only that product's on-hand moves, by exactly the units |
| Inventory.BarcodesOf | src/backend/services/inventory.ts:30-34 | the barcodes of the product and no other, each as often as stored |
| Inventory.LastTransactionAt | src/backend/services/inventory.ts:17-62 | None exactly when the product has no movement; otherwise the latest movement time, attained by one of them |
| Inventory.GetInventory | src/backend/services/inventory.ts:17-62 | one line per product row in order, with exactly its barcodes (each as often as stored), its on-hand, and its last movement time: None exactly when it has no movement, otherwise the time of one of its movements and no earlier than any of them |
| Inventory.InventoryOfUnmoved | src/backend/services/inventory.ts:17-62 | a product that never moved is listed with 0 on hand and no last movement |
| SettingsService.GetSettings | src/backend/services/settings.ts:4-51 | the first settings row, or None exactly when there is none |
| SettingsService.UpdateSettings | src/backend/services/settings.ts:10-37 | with no row it fails with no change; otherwise the row is rewritten by the patch |
| SettingsService.UpdateThenGet | src/backend/services/settings.ts:10-51 | after an update, reading the settings gives every patched field its new value and every other field its old one |
| SettingsService.EmptyPatchOnlyTouches | src/backend/services/settings.ts:17-35 | an empty patch only moves updated_at |
| Sales.RecordSaleByBarcode | src/backend/services/sales.ts:6-41 | unknown code and insufficient stock without force fail with no change; otherwise exactly one sale, one −units movement and one price×units earnings entry are appended; the reported new on-hand is the ledger's |
| Sales.InsertSaleRows | src/backend/services/sales.ts:17-39 | the three inserts at the next three ids, lowering only the sold product's on-hand, by the units |
| Sales.Sell | src/main/index.ts:61-64 | without settings the scan fails with no change; otherwise it sells the given units or the default scan quantity |
| Sales.AssignBarcodeToProduct | src/backend/services/sales.ts:43-45 | addBarcode with type 'custom' |
| Sales.SalesInRange | src/backend/services/sales.ts:47-59 | exactly the sales inside the bounds, each as often as stored |
| Sales.ListSales | src/backend/services/sales.ts:47-69 | each sale inside the bounds as often as it is stored and no other, in non-increasing time order |
| Sales.ListSalesSpec | src/backend/services/sales.ts:47-69 | a sale is listed exactly when it is stored and inside the bounds, newest first |
| Sales.SellingEverythingIsAllowed | src/backend/services/sales.ts:6-41 | an unforced scan of a known code for exactly the stock on hand succeeds as a plain sale and leaves 0 on hand in the ledger |
| Sorting.SortDescSorted | app/src/backend/services/reports.ts:41 | the ordering is by non-increasing key |
| Sorting.SortDescSum | app/src/backend/services/reports.ts:41 | ordering does not change any sum over the rows |
| Sorting.SortDescDistinct | app/src/backend/services/reports.ts:40-41 | ordering keeps distinct ids distinct |
| Reports.EarningsSummary | app/src/backend/services/reports.ts:4-19 | the sum of amounts in range, and 0 when no entry is in range |
| Reports.EarningsSummaryAppend | app/src/backend/services/reports.ts:4-19 | a new entry adds its amount to exactly the periods containing its time |
| Reports.UnboundedSummary | app/src/backend/services/reports.ts:16-18 | without bounds the total is the sum of every amount |
| Reports.Reportable | app/src/backend/services/reports.ts:36-39 | exactly the sales in range whose product row exists |
| Reports.ReportableCounts | app/src/backend/services/reports.ts:36-39 | each sale in range whose product row exists is kept as often as it is stored, and every other sale is dropped |
| Reports.GroupCorrect | app/src/backend/services/reports.ts:36-40 | one line per sold product with its summed units and revenue and its title, and no product twice |
| Reports.GroupRevenue | app/src/backend/services/reports.ts:36-40 | grouping keeps the total revenue |
| Reports.SalesByProduct | app/src/backend/services/reports.ts:21-50 | the lines are exactly the product groups of the reportable sales (one per product, each with that product's summed units and revenue and its title) in non-increasing revenue order |
| Reports.SalesByProductSpec | app/src/backend/services/reports.ts:21-50 | non-increasing revenue, no product twice, each line the product's units and revenue over the period with its row's title; a line exactly for each product with a sale in range and a row to join |
| Reports.EmptyPeriodReportsNothing | app/src/backend/services/reports.ts:21-50 | a period without sales gives an empty list |
| Reports.InvertedPeriodReportsNothing | app/src/backend/services/reports.ts:4-50 | a period with from after to gives an empty list and a zero total |
| Reports.LinkedEarningsRevenue | src/backend/services/sales.ts:22-39 | linked earnings sum to the revenue of their sales |
| Reports.AllReportable | app/src/backend/services/reports.ts:36-39 | with no bounds and every sold product present, every sale is reported |
| Reports.ReportsAgree | app/src/backend/services/reports.ts:4-50 | with no bounds and every sold product present, the product report's revenues add up to the earnings total |

## Left out

- Storage, I/O and processes are not modelled: the SQLite connection (`src/backend/db/connection.ts`), backups (`app/src/backend/services/backup.ts`), the IPC wiring beyond `sales:scan`, and all renderer screens.
- Time, ids and concurrency become parameters or are left out. The clock is the `now: nat` parameter. Timestamps are natural numbers compared as numbers, and a bound is an inclusive instant. The source compares ISO-8601 strings; full timestamps of one format order the same way, but the reports screen (`src/renderer/screens/Reports.tsx:14`, `:33-34`) passes date-only `YYYY-MM-DD` bounds. A stored timestamp on that day sorts after such a string, so a date-only `to` bound excludes its own day while a date-only `from` bound includes its day. In the model a date-only `to` bound stands for the instant just before that day begins, and a date-only `from` bound for the instant it begins. Random UUIDs are the `nextId` counter. Concurrent calls are not modelled.
- Numbers are integers: prices, amounts and volumes are JavaScript floating-point numbers and are modelled as unbounded integers, so rounding is not modelled.
- Atomicity: a storage error between the three inserts of a sale, or between the inserts of `createProduct`, is not modelled; the model states what a call that completes does.
- A missing, `null` or empty-string date bound counts as no bound in the source (truthiness test); in the model all three are `None`.
- Ties in `ORDER BY`: rows with equal keys come out in input order in the model; SQLite gives no order for them.
- Inventory.GetInventory: the source's `GROUP BY p.id` has no `ORDER BY`, so its lines come in whatever order SQLite groups them (in practice by UUID); the model lists them in product-table order.
- `GROUP BY s.product_id, p.title`: with unique product ids every group has one title, so the model groups by product id.
- The settings `map` function is the identity on a row; reading a missing row throws a `TypeError` in the source, which `GetSettings` returns as None.
- Products.UpdateProduct: an explicit `null` patch volume is not modelled (the patch type allows only a number or an absent field); a patch `None` volume is the absent field, which the driver refuses to bind.
- Sales.RecordSaleByBarcode: the source signature defaults `units` to 1; callers in the model always pass units, and the scan handler's default is `Sales.Sell`.
- Schema.EnsureSchema: table creation itself, the foreign-key declarations and the `ON DELETE CASCADE` are not modelled, since foreign keys are never switched on.
