/**
  The records the store holds and the services return, after src/shared/types.ts
  and the table definitions of src/backend/db/schema.ts.

  Money (prices, costs, amounts) is an integer number of minor currency units,
  volumes are integers, timestamps are naturals ordered by `<=` (they stand in
  for ISO-8601 strings, whose lexicographic order is their chronological order),
  and row ids are naturals drawn from the store's fresh-id supply.
 */
module Types {

  /** A nullable column or an optional (possibly undefined) argument. */
  datatype Option<+T> = None | Some(value: T) {
    /** `x ?? default` */
    function GetOr(default: T): T {
      match this
      case Some(v) => v
      case None => default
    }
  }

  /** `a ?? b` on two nullable values. */
  function Or<T>(a: Option<T>, b: Option<T>): Option<T> {
    if a.Some? then a else b
  }

  /** The errors the services throw, one constructor per distinct cause. */
  datatype Error =
    | UnknownBarcode        // 'UNKNOWN_BARCODE'
    | InsufficientStock     // 'INSUFFICIENT_STOCK'
    | ProductNotFound       // 'Product not found'
    | SettingsMissing       // 'Settings missing'
    | SettingsUnavailable   // reading a settings row that is not there
    | DuplicateBarcode      // UNIQUE constraint on barcodes.code
    | DuplicateSku          // UNIQUE constraint on products.sku
    | UnbindableParameter   // sql.js refuses to bind an `undefined` statement parameter

  /** An operation that returns a value or throws. */
  datatype Result<+T> = Success(value: T) | Failure(error: Error)

  /** An operation that returns nothing or throws. */
  datatype Outcome = Done | Failed(error: Error)

  datatype VolumeUnit = Ml | L

  datatype Category = Wine | Beer | Spirits | NonLiquor | Misc

  datatype Theme = Light | Dark

  /** The `reason` column of an inventory movement. */
  datatype Reason = Intake | Sale | SaleOverride | Adjustment | Return

  /** What a movement's `reference_id` column holds: the id of the sale that
      caused it, or the free-text note a caller supplied in its place. */
  datatype Reference = SaleRef(saleId: nat) | NoteRef(note: string)

  /** A row of the `products` table: the volume lives in two nullable columns. */
  datatype ProductRow = ProductRow(
    id: nat,
    title: string,
    volumeMl: Option<int>,
    volumeL: Option<int>,
    category: Category,
    price: int,
    cost: Option<int>,
    sku: Option<string>,
    defaultBarcodeId: Option<nat>,
    createdAt: nat,
    updatedAt: nat)

  /** A product as the services hand it out: one volume and a unit tag. */
  datatype Product = Product(
    id: nat,
    title: string,
    volume: int,
    volumeUnit: VolumeUnit,
    category: Category,
    price: int,
    cost: Option<int>,
    sku: Option<string>,
    defaultBarcodeId: Option<nat>,
    createdAt: nat,
    updatedAt: nat)

  /** A row of the `barcodes` table; `kind` is its `type` column. */
  datatype Barcode = Barcode(
    id: nat,
    productId: nat,
    code: string,
    kind: string,
    createdAt: nat,
    updatedAt: nat)

  /** A row of the `inventory_transactions` table: one signed stock movement. */
  datatype Movement = Movement(
    id: nat,
    productId: nat,
    change: int,
    reason: Reason,
    referenceId: Option<Reference>,
    createdAt: nat)

  /** A row of the `sales` table. */
  datatype SaleRecord = SaleRecord(
    id: nat,
    productId: nat,
    units: int,
    unitPrice: int,
    barcodeId: Option<nat>,
    createdAt: nat)

  /** A row of the `earnings_log` table. */
  datatype EarningsLog = EarningsLog(
    id: nat,
    saleId: nat,
    productId: nat,
    amount: int,
    createdAt: nat)

  /** The settings singleton; its table row and its record coincide field for field. */
  datatype Settings = Settings(
    id: string,
    currency: string,
    scanDefaultQty: int,
    lowStockThreshold: int,
    dataPath: string,
    backupPath: Option<string>,
    theme: Theme,
    createdAt: nat,
    updatedAt: nat)

  /** One line of the inventory listing. */
  datatype InventorySummary = InventorySummary(
    product: Product,
    barcodes: seq<Barcode>,
    onHand: int,
    lastTransactionAt: Option<nat>)

  /** Optional inclusive date bounds of a listing or report. */
  datatype ReportFilters = ReportFilters(from: Option<nat>, to: Option<nat>)

  /** One line of the sales-by-product report. */
  datatype SalesReportItem = SalesReportItem(
    productId: nat,
    title: string,
    revenue: int,
    units: int)

  /** `from <= t <= to`, a missing bound being no bound. */
  predicate InRange(t: nat, filters: ReportFilters) {
    && (filters.from.None? || filters.from.value <= t)
    && (filters.to.None? || t <= filters.to.value)
  }

  /** The value of one sale: units times the unit price captured at sale time. */
  function Revenue(s: SaleRecord): int {
    s.units * s.unitPrice
  }
}
