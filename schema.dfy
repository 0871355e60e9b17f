/**
  The store, after src/backend/db/schema.ts: one class whose fields are the six
  tables, the constraints the schema declares (primary keys, UNIQUE on
  `barcodes.code` and `products.sku`) together with the links that the sale
  protocol keeps between its three tables, and `ensureSchema` with the
  idempotent insertion of the default settings row.

  `nextId` is the fresh-id supply: every id in every table is below it, so the
  id it hands out next is new. Ids within a table strictly increase in row
  order, which makes them unique.
 */
module Schema {
  import opened Types

  ghost predicate ProductKeys(rows: seq<ProductRow>, bound: nat) {
    && (forall i, j :: 0 <= i < j < |rows| ==> rows[i].id < rows[j].id)
    && (forall i :: 0 <= i < |rows| ==> rows[i].id < bound)
  }

  ghost predicate BarcodeKeys(rows: seq<Barcode>, bound: nat) {
    && (forall i, j :: 0 <= i < j < |rows| ==> rows[i].id < rows[j].id)
    && (forall i :: 0 <= i < |rows| ==> rows[i].id < bound)
  }

  ghost predicate MovementKeys(rows: seq<Movement>, bound: nat) {
    && (forall i, j :: 0 <= i < j < |rows| ==> rows[i].id < rows[j].id)
    && (forall i :: 0 <= i < |rows| ==> rows[i].id < bound)
  }

  ghost predicate SaleKeys(rows: seq<SaleRecord>, bound: nat) {
    && (forall i, j :: 0 <= i < j < |rows| ==> rows[i].id < rows[j].id)
    && (forall i :: 0 <= i < |rows| ==> rows[i].id < bound)
  }

  ghost predicate EarningsKeys(rows: seq<EarningsLog>, bound: nat) {
    && (forall i, j :: 0 <= i < j < |rows| ==> rows[i].id < rows[j].id)
    && (forall i :: 0 <= i < |rows| ==> rows[i].id < bound)
  }

  /** `sku TEXT UNIQUE`: no two products share a present sku (NULLs may repeat). */
  ghost predicate SkusUnique(rows: seq<ProductRow>) {
    forall i, j :: 0 <= i < j < |rows| && rows[i].sku.Some? ==> rows[i].sku != rows[j].sku
  }

  /** `code TEXT UNIQUE NOT NULL`: no two barcodes share a code, on any products. */
  ghost predicate CodesUnique(rows: seq<Barcode>) {
    forall i, j :: 0 <= i < j < |rows| ==> rows[i].code != rows[j].code
  }

  predicate IsSaleReason(r: Reason) {
    r == Sale || r == SaleOverride
  }

  /** The movements written by sales, in ledger order. */
  function SaleMovements(ms: seq<Movement>): seq<Movement> {
    if ms == [] then []
    else
      var last := ms[|ms| - 1];
      SaleMovements(ms[..|ms| - 1]) + (if IsSaleReason(last.reason) then [last] else [])
  }

  lemma SaleMovementsAppend(ms: seq<Movement>, m: Movement)
    ensures SaleMovements(ms + [m]) == SaleMovements(ms) + (if IsSaleReason(m.reason) then [m] else [])
  {
    assert (ms + [m])[..|ms|] == ms;
  }

  /** The earnings entry `e` books the sale `s`. */
  predicate Books(e: EarningsLog, s: SaleRecord) {
    && e.saleId == s.id
    && e.productId == s.productId
    && e.amount == Revenue(s)
    && e.createdAt == s.createdAt
  }

  /** The movement `m` takes the units of sale `s` out of stock. */
  predicate Records(m: Movement, s: SaleRecord) {
    && m.productId == s.productId
    && m.change == -s.units
    && m.createdAt == s.createdAt
    && (m.referenceId == Some(SaleRef(s.id)) || (m.referenceId.Some? && m.referenceId.value.NoteRef?))
  }

  /** Every sale has its earnings entry, and every entry its sale, position for position. */
  ghost predicate EarningsLinked(sales: seq<SaleRecord>, earnings: seq<EarningsLog>) {
    |earnings| == |sales| && forall i :: 0 <= i < |sales| ==> Books(earnings[i], sales[i])
  }

  /** Every sale has its stock movement, and every sale movement its sale, position for position. */
  ghost predicate MovementsLinked(sales: seq<SaleRecord>, movements: seq<Movement>) {
    var sm := SaleMovements(movements);
    |sm| == |sales| && forall i :: 0 <= i < |sales| ==> Records(sm[i], sales[i])
  }

  class Database {
    var products: seq<ProductRow>
    var barcodes: seq<Barcode>
    var movements: seq<Movement>
    var sales: seq<SaleRecord>
    var earnings: seq<EarningsLog>
    var settings: seq<Settings>
    var nextId: nat

    ghost predicate Valid()
      reads this
    {
      && ProductKeys(products, nextId)
      && SkusUnique(products)
      && BarcodeKeys(barcodes, nextId)
      && CodesUnique(barcodes)
      && MovementKeys(movements, nextId)
      && SaleKeys(sales, nextId)
      && EarningsKeys(earnings, nextId)
      && |settings| <= 1
      && EarningsLinked(sales, earnings)
      && MovementsLinked(sales, movements)
    }

    /** A database file with the tables created and nothing in them. */
    constructor ()
      ensures Valid()
      ensures products == [] && barcodes == [] && movements == []
      ensures sales == [] && earnings == [] && settings == []
    {
      products, barcodes, movements := [], [], [];
      sales, earnings, settings := [], [], [];
      nextId := 0;
    }
  }

  /** Inserts the default settings row unless a settings row exists already. */
  method EnsureDefaultSettings(db: Database, now: nat)
    requires db.Valid()
    modifies db`settings
    ensures db.Valid()
    ensures old(db.settings) != [] ==> db.settings == old(db.settings)
    ensures old(db.settings) == [] ==>
      db.settings == [Settings("default", "INR", 1, 5, "local", None, Light, now, now)]
  {
    if db.settings != [] {
      return;
    }
    db.settings := [Settings("default", "INR", 1, 5, "local", None, Light, now, now)];
  }

  /** Creates the tables (already present in the model) and the settings singleton. */
  method EnsureSchema(db: Database, now: nat)
    requires db.Valid()
    modifies db`settings
    ensures db.Valid()
    ensures |db.settings| == 1
    ensures old(db.settings) != [] ==> db.settings == old(db.settings)
  {
    EnsureDefaultSettings(db, now);
  }

  // Facts about single table updates, used by the services to keep Valid().

  lemma ProductIndexUnique(rows: seq<ProductRow>, bound: nat, a: nat, b: nat)
    requires ProductKeys(rows, bound) && a < |rows| && b < |rows| && rows[a].id == rows[b].id
    ensures a == b
  {
  }

  lemma CodeIndexUnique(rows: seq<Barcode>, a: nat, b: nat)
    requires CodesUnique(rows) && a < |rows| && b < |rows| && rows[a].code == rows[b].code
    ensures a == b
  {
  }

  lemma AppendProduct(rows: seq<ProductRow>, row: ProductRow, bound: nat)
    requires ProductKeys(rows, bound) && SkusUnique(rows) && row.id == bound
    requires row.sku.Some? ==> forall j :: 0 <= j < |rows| ==> rows[j].sku != row.sku
    ensures ProductKeys(rows + [row], bound + 1) && SkusUnique(rows + [row])
  {
  }

  lemma AppendBarcode(rows: seq<Barcode>, b: Barcode, bound: nat)
    requires BarcodeKeys(rows, bound) && CodesUnique(rows) && b.id == bound
    requires forall j :: 0 <= j < |rows| ==> rows[j].code != b.code
    ensures BarcodeKeys(rows + [b], bound + 1) && CodesUnique(rows + [b])
  {
  }

  /** Removing one row keeps the product constraints. */
  lemma RemoveProduct(rows: seq<ProductRow>, bound: nat, k: nat)
    requires ProductKeys(rows, bound) && SkusUnique(rows) && k < |rows|
    ensures ProductKeys(rows[..k] + rows[k + 1..], bound) && SkusUnique(rows[..k] + rows[k + 1..])
  {
    var r := rows[..k] + rows[k + 1..];
    forall i, j | 0 <= i < j < |r|
      ensures r[i].id < r[j].id && (r[i].sku.Some? ==> r[i].sku != r[j].sku)
    {
      var i', j' := if i < k then i else i + 1, if j < k then j else j + 1;
      assert r[i] == rows[i'] && r[j] == rows[j'];
    }
    forall i | 0 <= i < |r|
      ensures r[i].id < bound
    {
      assert r[i] == rows[if i < k then i else i + 1];
    }
  }

  /** Removing the row at k drops exactly the rows with its id. */
  lemma RemoveProductMembers(rows: seq<ProductRow>, bound: nat, k: nat, p: ProductRow)
    requires ProductKeys(rows, bound) && k < |rows|
    ensures p in rows[..k] + rows[k + 1..] <==> p in rows && p.id != rows[k].id
  {
    var r := rows[..k] + rows[k + 1..];
    if p in rows && p.id != rows[k].id {
      var j :| 0 <= j < |rows| && rows[j] == p;
      assert r[if j < k then j else j - 1] == p;
    }
    if p in r {
      var j :| 0 <= j < |r| && r[j] == p;
      var j' := if j < k then j else j + 1;
      assert rows[j'] == p && j' != k;
      assert rows[j'].id != rows[k].id;
    }
  }

  /** The three rows of one sale keep the keys and the links between the sale tables. */
  lemma AppendSale(sales: seq<SaleRecord>, earnings: seq<EarningsLog>, movements: seq<Movement>,
                   s: SaleRecord, e: EarningsLog, m: Movement, bound: nat)
    requires SaleKeys(sales, bound) && EarningsKeys(earnings, bound) && MovementKeys(movements, bound)
    requires EarningsLinked(sales, earnings) && MovementsLinked(sales, movements)
    requires s.id == bound && m.id == bound + 1 && e.id == bound + 2
    requires e.saleId == s.id && e.productId == s.productId && e.amount == s.unitPrice * s.units
    requires e.createdAt == s.createdAt
    requires Records(m, s) && IsSaleReason(m.reason)
    ensures SaleKeys(sales + [s], bound + 3) && EarningsKeys(earnings + [e], bound + 3)
    ensures MovementKeys(movements + [m], bound + 3)
    ensures EarningsLinked(sales + [s], earnings + [e]) && MovementsLinked(sales + [s], movements + [m])
  {
    AppendSaleKeys(sales, s, bound);
    AppendEarningsKeys(earnings, e, bound);
    AppendMovementKeys(movements, m, bound);
    assert Books(e, s);
    AppendEarningsLinked(sales, earnings, s, e);
    AppendMovementsLinked(sales, movements, s, m);
  }

  lemma AppendSaleKeys(sales: seq<SaleRecord>, s: SaleRecord, bound: nat)
    requires SaleKeys(sales, bound) && s.id == bound
    ensures SaleKeys(sales + [s], bound + 3)
  {
  }

  lemma AppendEarningsKeys(earnings: seq<EarningsLog>, e: EarningsLog, bound: nat)
    requires EarningsKeys(earnings, bound) && e.id == bound + 2
    ensures EarningsKeys(earnings + [e], bound + 3)
  {
  }

  lemma AppendMovementKeys(movements: seq<Movement>, m: Movement, bound: nat)
    requires MovementKeys(movements, bound) && m.id == bound + 1
    ensures MovementKeys(movements + [m], bound + 3)
  {
  }

  lemma AppendEarningsLinked(sales: seq<SaleRecord>, earnings: seq<EarningsLog>, s: SaleRecord, e: EarningsLog)
    requires EarningsLinked(sales, earnings) && Books(e, s)
    ensures EarningsLinked(sales + [s], earnings + [e])
  {
    forall i | 0 <= i < |sales + [s]|
      ensures Books((earnings + [e])[i], (sales + [s])[i])
    {
      if i < |sales| {
        assert (earnings + [e])[i] == earnings[i] && (sales + [s])[i] == sales[i];
      }
    }
  }

  lemma AppendMovementsLinked(sales: seq<SaleRecord>, movements: seq<Movement>, s: SaleRecord, m: Movement)
    requires MovementsLinked(sales, movements) && Records(m, s) && IsSaleReason(m.reason)
    ensures MovementsLinked(sales + [s], movements + [m])
  {
    SaleMovementsAppend(movements, m);
    var sm := SaleMovements(movements);
    assert SaleMovements(movements + [m]) == sm + [m];
    forall i | 0 <= i < |sales + [s]|
      ensures Records((sm + [m])[i], (sales + [s])[i])
    {
      if i < |sales| {
        assert (sm + [m])[i] == sm[i] && (sales + [s])[i] == sales[i];
      }
    }
  }

  /** A movement that is not a sale's keeps the keys and the sale links. */
  lemma AppendMovement(sales: seq<SaleRecord>, movements: seq<Movement>, m: Movement, bound: nat)
    requires MovementKeys(movements, bound) && MovementsLinked(sales, movements)
    requires m.id == bound && !IsSaleReason(m.reason)
    ensures MovementKeys(movements + [m], bound + 1) && MovementsLinked(sales, movements + [m])
  {
    SaleMovementsAppend(movements, m);
  }

  /** A larger bound keeps the ids of the tables that did not grow below it. */
  lemma RaiseBound(db: Database, bound: nat)
    requires db.Valid() && db.nextId <= bound
    ensures ProductKeys(db.products, bound) && BarcodeKeys(db.barcodes, bound)
    ensures MovementKeys(db.movements, bound) && SaleKeys(db.sales, bound)
    ensures EarningsKeys(db.earnings, bound)
  {
  }

  /** Each sale has exactly one earnings entry carrying its id. */
  lemma EarningsEntryUnique(sales: seq<SaleRecord>, earnings: seq<EarningsLog>, bound: nat, i: nat, j: nat)
    requires SaleKeys(sales, bound) && EarningsLinked(sales, earnings)
    requires i < |sales| && j < |earnings|
    ensures earnings[j].saleId == sales[i].id <==> j == i
  {
    if j < i {
      assert sales[j].id < sales[i].id;
    } else if i < j {
      assert sales[i].id < sales[j].id;
    }
  }
}
