/**
  The movement ledger, after src/backend/services/inventory.ts. On-hand stock
  is never stored: it is the sum of the signed `change` of a product's
  movements, recomputed from the ledger on every read. Intake appends one
  movement; the inventory listing aggregates the ledger per product.
 */
module Inventory {
  import opened Types
  import opened Schema
  import opened Products
  import opened Sorting

  /** What one movement contributes to the stock of `productId`. */
  function ChangeFor(m: Movement, productId: nat): int {
    if m.productId == productId then m.change else 0
  }

  /** getOnHand: `COALESCE(SUM(change), 0)` over the movements of `productId`,
      computed over the ledger as it grows (the last movement added to the
      on-hand of the ones before it). */
  function OnHand(movements: seq<Movement>, productId: nat): (n: int)
    ensures n == SumOf(movements, (m: Movement) => ChangeFor(m, productId))
  {
    if movements == [] then 0
    else
      var prefix, last := movements[..|movements| - 1], movements[|movements| - 1];
      assert movements == prefix + [last];
      SumAppend(prefix, last, (m: Movement) => ChangeFor(m, productId));
      OnHand(prefix, productId) + (if last.productId == productId then last.change else 0)
  }

  /** Appending a movement changes the on-hand of its own product by its change and of no other product. */
  lemma OnHandAppend(movements: seq<Movement>, m: Movement, productId: nat)
    ensures OnHand(movements + [m], productId)
            == OnHand(movements, productId) + (if m.productId == productId then m.change else 0)
  {
    assert (movements + [m])[..|movements|] == movements;
  }

  /** A product without movements has nothing on hand. */
  lemma {:induction false} OnHandNoMovements(movements: seq<Movement>, productId: nat)
    requires forall i :: 0 <= i < |movements| ==> movements[i].productId != productId
    ensures OnHand(movements, productId) == 0
  {
    if movements != [] {
      OnHandNoMovements(movements[..|movements| - 1], productId);
    }
  }

  /** addStock: appends one movement of `units` with the given reason (intake
      by default) and no reference; the product is not checked to exist. */
  method AddStock(db: Database, productId: nat, units: int, reason: Option<Reason>, now: nat)
    requires db.Valid()
    requires reason == None || reason == Some(Intake) || reason == Some(Adjustment)
    modifies db`movements, db`nextId
    ensures db.Valid()
    ensures db.movements == old(db.movements) + [Movement(old(db.nextId), productId, units, reason.GetOr(Intake), None, now)]
    ensures db.nextId == old(db.nextId) + 1
    ensures forall p :: OnHand(db.movements, p) == OnHand(old(db.movements), p) + (if p == productId then units else 0)
  {
    var m := Movement(db.nextId, productId, units, reason.GetOr(Intake), None, now);
    AppendMovement(db.sales, db.movements, m, db.nextId);
    RaiseBound(db, db.nextId + 1);
    forall p {
      OnHandAppend(db.movements, m, p);
    }
    db.movements := db.movements + [m];
    db.nextId := db.nextId + 1;
  }

  /** The barcodes a product owns, in table order (`WHERE product_id = ?`). */
  function BarcodesOf(barcodes: seq<Barcode>, productId: nat): (r: seq<Barcode>)
    ensures forall b :: multiset(r)[b] == if b.productId == productId then multiset(barcodes)[b] else 0
    ensures forall b :: b in r <==> b in barcodes && b.productId == productId
  {
    if barcodes == [] then []
    else
      var rest := BarcodesOf(barcodes[1..], productId);
      assert barcodes == [barcodes[0]] + barcodes[1..];
      assert forall b :: b in barcodes <==> b == barcodes[0] || b in barcodes[1..];
      if barcodes[0].productId == productId then [barcodes[0]] + rest else rest
  }

  /** `MAX(created_at)` over a product's movements; None when it has none. */
  function LastTransactionAt(movements: seq<Movement>, productId: nat): (r: Option<nat>)
    ensures r.None? <==> forall i :: 0 <= i < |movements| ==> movements[i].productId != productId
    ensures r.Some? ==>
      && (exists i :: 0 <= i < |movements| && movements[i].productId == productId && movements[i].createdAt == r.value)
      && forall i :: 0 <= i < |movements| && movements[i].productId == productId ==> movements[i].createdAt <= r.value
  {
    if movements == [] then None
    else
      var rest := LastTransactionAt(movements[1..], productId);
      assert forall i :: 1 <= i < |movements| ==> movements[i] == movements[1..][i - 1];
      var m := movements[0];
      if m.productId != productId then rest
      else if rest.Some? && m.createdAt <= rest.value then rest
      else Some(m.createdAt)
  }

  /** The inventory line of one product row. */
  function Summary(row: ProductRow, barcodes: seq<Barcode>, movements: seq<Movement>): InventorySummary {
    InventorySummary(MapRowToProduct(row), BarcodesOf(barcodes, row.id),
                     OnHand(movements, row.id), LastTransactionAt(movements, row.id))
  }

  /** getInventory: one line per product row, including products without any
      movement. The lines come in the order of the product table; the source's
      `GROUP BY p.id` without `ORDER BY` gives no particular order. */
  function GetInventory(products: seq<ProductRow>, barcodes: seq<Barcode>, movements: seq<Movement>)
    : (r: seq<InventorySummary>)
    ensures |r| == |products|
    ensures forall i :: 0 <= i < |products| ==>
      && r[i].product == MapRowToProduct(products[i])
      && (forall b :: multiset(r[i].barcodes)[b] ==
            if b.productId == products[i].id then multiset(barcodes)[b] else 0)
      && r[i].onHand == OnHand(movements, products[i].id)
      && (r[i].lastTransactionAt.None? <==>
            forall j :: 0 <= j < |movements| ==> movements[j].productId != products[i].id)
      && (r[i].lastTransactionAt.Some? ==>
            && (exists j :: 0 <= j < |movements| && movements[j].productId == products[i].id
                  && movements[j].createdAt == r[i].lastTransactionAt.value)
            && forall j :: 0 <= j < |movements| && movements[j].productId == products[i].id
                 ==> movements[j].createdAt <= r[i].lastTransactionAt.value)
  {
    seq(|products|, i requires 0 <= i < |products| => Summary(products[i], barcodes, movements))
  }

  /** A product that never moved is listed with 0 on hand and no last movement time. */
  lemma InventoryOfUnmoved(products: seq<ProductRow>, barcodes: seq<Barcode>, movements: seq<Movement>, i: nat)
    requires i < |products|
    requires forall j :: 0 <= j < |movements| ==> movements[j].productId != products[i].id
    ensures GetInventory(products, barcodes, movements)[i].onHand == 0
    ensures GetInventory(products, barcodes, movements)[i].lastTransactionAt == None
  {
    OnHandNoMovements(movements, products[i].id);
  }
}
