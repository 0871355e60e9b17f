/**
  The sale coordinator, after src/backend/services/sales.ts, and the scan
  handler of src/main/index.ts that supplies the default quantity.

  A sale resolves the scanned code, reads the derived on-hand, applies the
  insufficient-stock guard (lifted by `force`) and then appends one sale, one
  movement of -units and one earnings entry. The source issues the three inserts
  without a transaction; the model proves what a call that completes does, and
  storage failures between the inserts are not modelled.
 */
module Sales {
  import opened Types
  import opened Schema
  import opened Sorting
  import opened Products
  import opened Inventory
  import opened SettingsService

  /** What recordSaleByBarcode returns. */
  datatype SaleResult = SaleResult(saleId: nat, product: Product, units: int, newOnHand: int)

  /** The movement reference: the caller's note when given (even an empty
      one), otherwise the sale id; `force` does not enter into it. */
  function SaleReference(note: Option<string>, saleId: nat): Reference {
    if note.Some? then NoteRef(note.value) else SaleRef(saleId)
  }

  /** The effect of recordSaleByBarcode(code, units, {force, note}) at time
      `now` on `db`, from its state before the call, with result `r`. */
  twostate predicate SaleEffect(db: Database, code: string, units: int, force: bool,
                                note: Option<string>, now: nat, new r: Result<SaleResult>)
    reads db
  {
    var lookup := ProductByBarcode(old(db.products), old(db.barcodes), code);
    if lookup.None? then
      r == Failure(UnknownBarcode) && unchanged(db)
    else
      var product, barcode := lookup.value.product, lookup.value.barcode;
      var onHand := OnHand(old(db.movements), product.id);
      if onHand < units && !force then
        r == Failure(InsufficientStock) && unchanged(db)
      else
        var saleId := old(db.nextId);
        && r == Success(SaleResult(saleId, product, units, onHand - units))
        && db.sales == old(db.sales) + [SaleRecord(saleId, product.id, units, product.price, Some(barcode.id), now)]
        && db.movements == old(db.movements)
             + [Movement(saleId + 1, product.id, -units, if force then SaleOverride else Sale,
                         Some(SaleReference(note, saleId)), now)]
        && db.earnings == old(db.earnings) + [EarningsLog(saleId + 2, saleId, product.id, product.price * units, now)]
        && db.nextId == saleId + 3
        && db.products == old(db.products) && db.barcodes == old(db.barcodes)
        && db.settings == old(db.settings)
  }

  /** recordSaleByBarcode. */
  method RecordSaleByBarcode(db: Database, code: string, units: int, force: bool, note: Option<string>, now: nat)
    returns (r: Result<SaleResult>)
    requires db.Valid()
    modifies db`sales, db`movements, db`earnings, db`nextId
    ensures db.Valid()
    ensures SaleEffect(db, code, units, force, note, now, r)
    ensures r.Success? ==>
      && r.value.newOnHand == OnHand(db.movements, r.value.product.id)
      && forall p :: p != r.value.product.id ==> OnHand(db.movements, p) == OnHand(old(db.movements), p)
  {
    var lookup := ProductByBarcode(db.products, db.barcodes, code);
    assert lookup == ProductByBarcode(old(db.products), old(db.barcodes), code);
    if lookup.None? {
      return Failure(UnknownBarcode);
    }
    var product, barcode := lookup.value.product, lookup.value.barcode;
    var onHand := OnHand(db.movements, product.id);
    assert onHand == OnHand(old(db.movements), product.id);
    if onHand < units && !force {
      return Failure(InsufficientStock);
    }
    var saleId := InsertSaleRows(db, product, barcode.id, units, force, note, now);
    r := Success(SaleResult(saleId, product, units, onHand - units));
  }

  /** The three inserts of a sale that passed the guard: the sale at the old
      `nextId`, its movement of -units and its earnings entry of price * units. */
  method InsertSaleRows(db: Database, product: Product, barcodeId: nat, units: int, force: bool,
                        note: Option<string>, now: nat)
    returns (saleId: nat)
    requires db.Valid()
    modifies db`sales, db`movements, db`earnings, db`nextId
    ensures db.Valid()
    ensures saleId == old(db.nextId) && db.nextId == saleId + 3
    ensures db.sales == old(db.sales) + [SaleRecord(saleId, product.id, units, product.price, Some(barcodeId), now)]
    ensures db.movements == old(db.movements)
      + [Movement(saleId + 1, product.id, -units, if force then SaleOverride else Sale,
                  Some(SaleReference(note, saleId)), now)]
    ensures db.earnings == old(db.earnings) + [EarningsLog(saleId + 2, saleId, product.id, product.price * units, now)]
    ensures forall p :: OnHand(db.movements, p) == OnHand(old(db.movements), p) - (if p == product.id then units else 0)
  {
    saleId := db.nextId;
    var sale := SaleRecord(saleId, product.id, units, product.price, Some(barcodeId), now);
    var movement := Movement(saleId + 1, product.id, -units, if force then SaleOverride else Sale,
                             Some(SaleReference(note, saleId)), now);
    var entry := EarningsLog(saleId + 2, saleId, product.id, product.price * units, now);
    AppendSale(db.sales, db.earnings, db.movements, sale, entry, movement, saleId);
    RaiseBound(db, saleId + 3);
    forall p {
      OnHandAppend(db.movements, movement, p);
    }
    db.sales := db.sales + [sale];
    db.movements := db.movements + [movement];
    db.earnings := db.earnings + [entry];
    db.nextId := saleId + 3;
  }

  /** The `sales:scan` handler: reads the settings first, then sells `units`,
      or the configured default scan quantity when `units` is omitted. */
  method Sell(db: Database, code: string, units: Option<int>, force: bool, note: Option<string>, now: nat)
    returns (r: Result<SaleResult>)
    requires db.Valid()
    modifies db`sales, db`movements, db`earnings, db`nextId
    ensures db.Valid()
    ensures old(db.settings) == [] ==> r == Failure(SettingsUnavailable) && unchanged(db)
    ensures old(db.settings) != [] ==>
      SaleEffect(db, code, units.GetOr(old(db.settings)[0].scanDefaultQty), force, note, now, r)
  {
    var settings := GetSettings(db.settings);
    if settings.None? {
      return Failure(SettingsUnavailable);
    }
    r := RecordSaleByBarcode(db, code, units.GetOr(settings.value.scanDefaultQty), force, note, now);
  }

  /** assignBarcodeToProduct: addBarcode with the type 'custom'. */
  method AssignBarcodeToProduct(db: Database, productId: nat, code: string, now: nat)
    returns (r: Result<Barcode>)
    requires db.Valid()
    modifies db`barcodes, db`nextId
    ensures db.Valid()
    ensures CodeTaken(old(db.barcodes), code) ==>
      r == Failure(DuplicateBarcode) && db.barcodes == old(db.barcodes)
    ensures !CodeTaken(old(db.barcodes), code) ==>
      && r == Success(Barcode(old(db.nextId), productId, code, "custom", now, now))
      && db.barcodes == old(db.barcodes) + [r.value]
  {
    r := AddBarcode(db, productId, code, Some("custom"), now);
  }

  function SaleTime(s: SaleRecord): int {
    s.createdAt
  }

  /** The sales with `from <= created_at <= to`, in table order. */
  function SalesInRange(sales: seq<SaleRecord>, filters: ReportFilters): (r: seq<SaleRecord>)
    ensures forall s :: multiset(r)[s] == if InRange(s.createdAt, filters) then multiset(sales)[s] else 0
  {
    if sales == [] then []
    else
      assert sales == [sales[0]] + sales[1..];
      (if InRange(sales[0].createdAt, filters) then [sales[0]] else []) + SalesInRange(sales[1..], filters)
  }

  /** listSales: exactly the sales inside the optional inclusive bounds, each
      as often as it is stored, newest first. */
  function ListSales(sales: seq<SaleRecord>, filters: ReportFilters): (r: seq<SaleRecord>)
    ensures forall s :: multiset(r)[s] == if InRange(s.createdAt, filters) then multiset(sales)[s] else 0
    ensures SortedDesc(r, SaleTime)
  {
    var matching := SalesInRange(sales, filters);
    SortDescSorted(matching, SaleTime);
    SortDesc(matching, SaleTime)
  }

  /** A sale is listed exactly when it is stored and inside the bounds, and the
      list runs from the newest sale to the oldest. */
  lemma ListSalesSpec(sales: seq<SaleRecord>, filters: ReportFilters)
    ensures forall s :: s in ListSales(sales, filters) <==> s in sales && InRange(s.createdAt, filters)
    ensures forall i, j :: 0 <= i < j < |ListSales(sales, filters)| ==>
      ListSales(sales, filters)[i].createdAt >= ListSales(sales, filters)[j].createdAt
  {
    var r := ListSales(sales, filters);
    forall s
      ensures s in r <==> s in sales && InRange(s.createdAt, filters)
    {
      assert s in r <==> s in multiset(r);
      assert s in sales <==> s in multiset(sales);
    }
    assert forall i, j :: 0 <= i < j < |r| ==> SaleTime(r[i]) >= SaleTime(r[j]);
  }

  /** Selling exactly what is on hand needs no override: an unforced sale of a
      known code succeeds, is booked as a plain sale and leaves 0 on hand. */
  twostate lemma SellingEverythingIsAllowed(db: Database, code: string, units: int,
                                            note: Option<string>, now: nat, r: Result<SaleResult>)
    requires SaleEffect(db, code, units, false, note, now, r)
    requires ProductByBarcode(old(db.products), old(db.barcodes), code).Some?
    requires OnHand(old(db.movements), ProductByBarcode(old(db.products), old(db.barcodes), code).value.product.id) == units
    ensures r.Success? && r.value.newOnHand == 0
    ensures |db.movements| == |old(db.movements)| + 1 && db.movements[|db.movements| - 1].reason == Sale
    ensures OnHand(db.movements, r.value.product.id) == 0
  {
    var lookup := ProductByBarcode(old(db.products), old(db.barcodes), code);
    var product, barcode := lookup.value.product, lookup.value.barcode;
    var saleId := old(db.nextId);
    var m := Movement(saleId + 1, product.id, -units, Sale, Some(SaleReference(note, saleId)), now);
    assert db.movements == old(db.movements) + [m] && r == Success(SaleResult(saleId, product, units, 0));
    OnHandAppend(old(db.movements), m, product.id);
  }
}
