/**
  The catalog, after app/src/backend/services/products.ts: reading product rows
  into products, creating a product with its barcodes, patching and deleting a
  product, attaching a barcode, and resolving a scanned code to its barcode and
  product.

  The code is modelled as written, including two ways in which a volume does not
  read back as it was given: the row query coalesces both volume columns to 0,
  so a listed litre product shows volume 0 and so does a litre product after
  any update; and changing the unit in an update leaves the other unit's column
  in place. The lemmas at the end state what is read back.
 */
module Products {
  import opened Types
  import opened Schema

  /** One barcode in the input of createProduct; `kind` defaults to 'custom'. */
  datatype BarcodeInput = BarcodeInput(code: string, kind: Option<string>)

  /** The input of createProduct (a missing barcode list is the empty list). */
  datatype NewProduct = NewProduct(
    title: string,
    volume: int,
    volumeUnit: VolumeUnit,
    category: Category,
    price: int,
    cost: Option<int>,
    sku: Option<string>,
    barcodes: seq<BarcodeInput>)

  /** The partial patch of updateProduct: None is an absent field (`undefined`);
      for the nullable fields it also stands for an explicit null, which the
      source treats the same way. */
  datatype ProductPatch = ProductPatch(
    title: Option<string>,
    volume: Option<int>,
    volumeUnit: Option<VolumeUnit>,
    category: Option<Category>,
    price: Option<int>,
    cost: Option<int>,
    sku: Option<string>,
    defaultBarcodeId: Option<nat>)

  datatype Created = Created(product: Product, barcodes: seq<Barcode>)

  datatype Lookup = Lookup(product: Product, barcode: Barcode)

  /** mapRowToProduct: the volume is the ml column unless it is NULL, then the
      litre column, then 0; the unit is 'ml' exactly when the ml column holds a
      non-zero value. */
  function MapRowToProduct(row: ProductRow): (p: Product)
    ensures p.volume == (if row.volumeMl.Some? then row.volumeMl.value else row.volumeL.GetOr(0))
    ensures p.volumeUnit == Ml <==> row.volumeMl.Some? && row.volumeMl.value != 0
    ensures && p.id == row.id && p.title == row.title && p.category == row.category
            && p.price == row.price && p.cost == row.cost && p.sku == row.sku
            && p.defaultBarcodeId == row.defaultBarcodeId
            && p.createdAt == row.createdAt && p.updatedAt == row.updatedAt
  {
    var volume := if row.volumeMl.Some? then row.volumeMl.value else row.volumeL.GetOr(0);
    var unit := if row.volumeMl.Some? && row.volumeMl.value != 0 then Ml else L;
    Product(row.id, row.title, volume, unit, row.category, row.price, row.cost,
            row.sku, row.defaultBarcodeId, row.createdAt, row.updatedAt)
  }

  /** A row as the shared product query reads it: `COALESCE(volume_ml, 0)`,
      `COALESCE(volume_l, 0)`. */
  function Selected(row: ProductRow): ProductRow {
    row.(volumeMl := Some(row.volumeMl.GetOr(0)), volumeL := Some(row.volumeL.GetOr(0)))
  }

  /** listProducts: every row, in table order, read through the coalescing query. */
  function ListProducts(products: seq<ProductRow>): (r: seq<Product>)
    ensures |r| == |products|
    ensures forall i :: 0 <= i < |products| ==>
      && r[i].id == products[i].id
      && r[i].title == products[i].title
      && r[i].price == products[i].price
      && r[i].sku == products[i].sku
      && r[i].category == products[i].category
      && r[i].cost == products[i].cost
      && r[i].defaultBarcodeId == products[i].defaultBarcodeId
      && r[i].createdAt == products[i].createdAt
      && r[i].updatedAt == products[i].updatedAt
      && r[i].volume == products[i].volumeMl.GetOr(0)
      && (r[i].volumeUnit == Ml <==> products[i].volumeMl.GetOr(0) != 0)
  {
    seq(|products|, i requires 0 <= i < |products| => MapRowToProduct(Selected(products[i])))
  }

  /** The index of the product with `id`, if there is one. */
  function FindProduct(products: seq<ProductRow>, id: nat): (k: Option<nat>)
    ensures k.Some? ==> k.value < |products| && products[k.value].id == id
    ensures k.Some? ==> forall j :: 0 <= j < k.value ==> products[j].id != id
    ensures k.None? <==> forall j :: 0 <= j < |products| ==> products[j].id != id
  {
    if products == [] then None
    else if products[0].id == id then Some(0)
    else
      match FindProduct(products[1..], id)
      case None => None
      case Some(j) => Some(j + 1)
  }

  /** Writing `sku` to any row other than `skip` would break `sku UNIQUE`. */
  predicate SkuClash(products: seq<ProductRow>, sku: Option<string>, skip: int) {
    sku.Some? && exists j :: 0 <= j < |products| && j != skip && products[j].sku == sku
  }

  /** Some barcode already carries `code`. */
  predicate CodeTaken(barcodes: seq<Barcode>, code: string) {
    exists j :: 0 <= j < |barcodes| && barcodes[j].code == code
  }

  /** Inserting `entries` one after another after `existing` meets `code UNIQUE`. */
  ghost predicate CodesFresh(existing: seq<Barcode>, entries: seq<BarcodeInput>) {
    forall i :: 0 <= i < |entries| ==>
      && !CodeTaken(existing, entries[i].code)
      && forall j :: 0 <= j < i ==> entries[j].code != entries[i].code
  }

  /** The product row createProduct inserts: exactly one volume column set. */
  function NewRow(id: nat, input: NewProduct, now: nat): ProductRow {
    ProductRow(id, input.title,
               if input.volumeUnit == Ml then Some(input.volume) else None,
               if input.volumeUnit == L then Some(input.volume) else None,
               input.category, input.price, input.cost, input.sku, None, now, now)
  }

  /** The barcode rows createProduct inserts for `entries`, with consecutive ids. */
  function BarcodeRows(productId: nat, firstId: nat, entries: seq<BarcodeInput>, now: nat): (r: seq<Barcode>)
    ensures |r| == |entries|
    ensures forall i :: 0 <= i < |entries| ==>
      r[i] == Barcode(firstId + i, productId, entries[i].code, entries[i].kind.GetOr("custom"), now, now)
  {
    seq(|entries|, i requires 0 <= i < |entries| =>
      Barcode(firstId + i, productId, entries[i].code, entries[i].kind.GetOr("custom"), now, now))
  }

  /** createProduct: inserts the product, then its barcodes one by one. There is
      no transaction: when a barcode insert hits the unique code constraint, the
      product row and the barcodes inserted before it stay. */
  method CreateProduct(db: Database, input: NewProduct, now: nat) returns (r: Result<Created>)
    requires db.Valid()
    modifies db`products, db`barcodes, db`nextId
    ensures db.Valid()
    ensures SkuClash(old(db.products), input.sku, -1) ==>
      r == Failure(DuplicateSku) && db.products == old(db.products) && db.barcodes == old(db.barcodes)
    ensures !SkuClash(old(db.products), input.sku, -1) ==>
      db.products == old(db.products) + [NewRow(old(db.nextId), input, now)]
    ensures r.Success? <==> !SkuClash(old(db.products), input.sku, -1) && CodesFresh(old(db.barcodes), input.barcodes)
    ensures r.Success? ==>
      && r.value.product == MapRowToProduct(NewRow(old(db.nextId), input, now))
      && r.value.barcodes == BarcodeRows(old(db.nextId), old(db.nextId) + 1, input.barcodes, now)
      && db.barcodes == old(db.barcodes) + r.value.barcodes
    ensures r.Failure? && !SkuClash(old(db.products), input.sku, -1) ==>
      && r.error == DuplicateBarcode
      && exists k :: 0 <= k < |input.barcodes|
           && CodesFresh(old(db.barcodes), input.barcodes[..k])
           && !CodesFresh(old(db.barcodes), input.barcodes[..k + 1])
           && db.barcodes == old(db.barcodes) + BarcodeRows(old(db.nextId), old(db.nextId) + 1, input.barcodes[..k], now)
  {
    if SkuClash(db.products, input.sku, -1) {
      return Failure(DuplicateSku);
    }
    var id := db.nextId;
    var row := NewRow(id, input, now);
    AppendProduct(db.products, row, id);
    RaiseBound(db, id + 1);
    db.products := db.products + [row];
    db.nextId := db.nextId + 1;
    var created, ok := InsertBarcodes(db, id, input.barcodes, now);
    if !ok {
      return Failure(DuplicateBarcode);
    }
    return Success(Created(MapRowToProduct(row), created));
  }

  /** The loop of createProduct: inserts the barcodes of one product in order,
      stopping at the first whose code is already taken. */
  method InsertBarcodes(db: Database, productId: nat, entries: seq<BarcodeInput>, now: nat)
    returns (created: seq<Barcode>, ok: bool)
    requires db.Valid()
    modifies db`barcodes, db`nextId
    ensures db.Valid()
    ensures ok <==> CodesFresh(old(db.barcodes), entries)
    ensures ok ==>
      && created == BarcodeRows(productId, old(db.nextId), entries, now)
      && db.barcodes == old(db.barcodes) + created
    ensures !ok ==>
      exists k :: 0 <= k < |entries|
        && CodesFresh(old(db.barcodes), entries[..k])
        && !CodesFresh(old(db.barcodes), entries[..k + 1])
        && db.barcodes == old(db.barcodes) + BarcodeRows(productId, old(db.nextId), entries[..k], now)
  {
    ghost var before := db.barcodes;
    ghost var first := db.nextId;
    created := [];
    var i := 0;
    while i < |entries|
      invariant 0 <= i <= |entries|
      invariant db.Valid()
      invariant CodesFresh(before, entries[..i])
      invariant created == BarcodeRows(productId, first, entries[..i], now)
      invariant db.barcodes == before + created
      invariant db.nextId == first + i
    {
      var entry := entries[i];
      CodesFreshNext(before, entries, i);
      TakenAfterRows(before, productId, first, entries[..i], now, entry.code);
      var added := AddBarcode(db, productId, entry.code, entry.kind, now);
      if added.Failure? {
        assert !CodesFresh(before, entries[..i + 1]);
        return created, false;
      }
      BarcodeRowsNext(productId, first, entries, i, now);
      created := created + [added.value];
      i := i + 1;
    }
    assert entries[..i] == entries;
    ok := true;
  }

  lemma BarcodeRowsNext(productId: nat, firstId: nat, entries: seq<BarcodeInput>, i: nat, now: nat)
    requires i < |entries|
    ensures BarcodeRows(productId, firstId, entries[..i + 1], now)
      == BarcodeRows(productId, firstId, entries[..i], now)
         + [Barcode(firstId + i, productId, entries[i].code, entries[i].kind.GetOr("custom"), now, now)]
  {
  }

  /** Whether the next entry keeps the batch fresh depends only on that entry. */
  lemma CodesFreshNext(existing: seq<Barcode>, entries: seq<BarcodeInput>, i: nat)
    requires i < |entries| && CodesFresh(existing, entries[..i])
    ensures CodesFresh(existing, entries[..i + 1]) <==>
      && !CodeTaken(existing, entries[i].code)
      && forall j :: 0 <= j < i ==> entries[j].code != entries[i].code
  {
    assert forall j :: 0 <= j <= i ==> entries[..i + 1][j] == entries[j];
    assert forall j :: 0 <= j < i ==> entries[..i][j] == entries[j];
  }

  /** A code is taken after inserting a batch exactly when it was taken before
      or belongs to one of the batch's entries. */
  lemma TakenAfterRows(existing: seq<Barcode>, productId: nat, firstId: nat, entries: seq<BarcodeInput>, now: nat, code: string)
    ensures CodeTaken(existing + BarcodeRows(productId, firstId, entries, now), code) <==>
      CodeTaken(existing, code) || exists j :: 0 <= j < |entries| && entries[j].code == code
  {
    var rows := BarcodeRows(productId, firstId, entries, now);
    var all := existing + rows;
    if CodeTaken(all, code) {
      var j :| 0 <= j < |all| && all[j].code == code;
      if j < |existing| {
        assert existing[j].code == code;
      } else {
        assert entries[j - |existing|].code == code;
      }
    }
    if CodeTaken(existing, code) {
      var j :| 0 <= j < |existing| && existing[j].code == code;
      assert all[j].code == code;
    }
    if exists j :: 0 <= j < |entries| && entries[j].code == code {
      var j :| 0 <= j < |entries| && entries[j].code == code;
      assert all[|existing| + j].code == code;
    }
  }

  /** The row updateProduct writes: each field absent from the patch keeps the
      value read through the coalescing query, and `updated_at` becomes now. */
  function PatchedRow(existing: ProductRow, patch: ProductPatch, now: nat): ProductRow {
    var e := Selected(existing);
    ProductRow(
      e.id,
      patch.title.GetOr(e.title),
      if patch.volumeUnit == Some(Ml) then patch.volume else e.volumeMl,
      if patch.volumeUnit == Some(L) then patch.volume else e.volumeL,
      patch.category.GetOr(e.category),
      patch.price.GetOr(e.price),
      Or(patch.cost, e.cost),
      Or(patch.sku, e.sku),
      Or(patch.defaultBarcodeId, e.defaultBarcodeId),
      e.createdAt,
      now)
  }

  /** updateProduct: rewrites the one row with `id`. A patch that names a unit
      but carries no volume passes `undefined` as that column's parameter, which
      the driver refuses to bind, so the statement fails and nothing is written. */
  method UpdateProduct(db: Database, id: nat, patch: ProductPatch, now: nat) returns (r: Outcome)
    requires db.Valid()
    modifies db`products
    ensures db.Valid()
    ensures FindProduct(old(db.products), id).None? ==>
      r == Failed(ProductNotFound) && db.products == old(db.products)
    ensures FindProduct(old(db.products), id).Some? && patch.volumeUnit.Some? && patch.volume.None? ==>
      r == Failed(UnbindableParameter) && db.products == old(db.products)
    ensures FindProduct(old(db.products), id).Some? && !(patch.volumeUnit.Some? && patch.volume.None?) ==>
      var k := FindProduct(old(db.products), id).value;
      var row := PatchedRow(old(db.products)[k], patch, now);
      if SkuClash(old(db.products), row.sku, k) then
        r == Failed(DuplicateSku) && db.products == old(db.products)
      else
        r == Done && db.products == old(db.products)[k := row]
  {
    var found := FindProduct(db.products, id);
    if found.None? {
      return Failed(ProductNotFound);
    }
    if patch.volumeUnit.Some? && patch.volume.None? {
      return Failed(UnbindableParameter);
    }
    var k := found.value;
    var row := PatchedRow(db.products[k], patch, now);
    if SkuClash(db.products, row.sku, k) {
      return Failed(DuplicateSku);
    }
    db.products := db.products[k := row];
    r := Done;
  }

  /** deleteProduct: removes the row with `id`. The schema declares a cascade to
      the product's barcodes, but foreign keys are never switched on, so the
      barcodes stay. */
  method DeleteProduct(db: Database, id: nat)
    requires db.Valid()
    modifies db`products
    ensures db.Valid()
    ensures forall p :: p in db.products <==> p in old(db.products) && p.id != id
    ensures FindProduct(old(db.products), id).None? ==> db.products == old(db.products)
    ensures FindProduct(old(db.products), id).Some? ==>
      var k := FindProduct(old(db.products), id).value;
      db.products == old(db.products)[..k] + old(db.products)[k + 1..]
  {
    var found := FindProduct(db.products, id);
    if found.Some? {
      var k := found.value;
      RemoveProduct(db.products, db.nextId, k);
      forall p {
        RemoveProductMembers(db.products, db.nextId, k, p);
      }
      db.products := db.products[..k] + db.products[k + 1..];
    }
  }

  /** addBarcode: appends one barcode for `productId` (which is not checked to
      exist), failing on a code that any barcode already has. */
  method AddBarcode(db: Database, productId: nat, code: string, kind: Option<string>, now: nat)
    returns (r: Result<Barcode>)
    requires db.Valid()
    modifies db`barcodes, db`nextId
    ensures db.Valid()
    ensures CodeTaken(old(db.barcodes), code) ==>
      r == Failure(DuplicateBarcode) && db.barcodes == old(db.barcodes)
    ensures !CodeTaken(old(db.barcodes), code) ==>
      && r == Success(Barcode(old(db.nextId), productId, code, kind.GetOr("custom"), now, now))
      && db.barcodes == old(db.barcodes) + [r.value]
      && db.nextId == old(db.nextId) + 1
  {
    if CodeTaken(db.barcodes, code) {
      return Failure(DuplicateBarcode);
    }
    var b := Barcode(db.nextId, productId, code, kind.GetOr("custom"), now, now);
    AppendBarcode(db.barcodes, b, db.nextId);
    RaiseBound(db, db.nextId + 1);
    db.barcodes := db.barcodes + [b];
    db.nextId := db.nextId + 1;
    r := Success(b);
  }

  /** getProductByBarcode: the first barcode with `code` whose product row
      exists (the inner join), with that product. */
  function ProductByBarcode(products: seq<ProductRow>, barcodes: seq<Barcode>, code: string): (r: Option<Lookup>)
    ensures r.None? <==>
      forall i :: 0 <= i < |barcodes| && barcodes[i].code == code ==>
        FindProduct(products, barcodes[i].productId).None?
    ensures r.Some? ==>
      && r.value.barcode in barcodes
      && r.value.barcode.code == code
      && r.value.product.id == r.value.barcode.productId
      && exists k :: 0 <= k < |products| && products[k].id == r.value.barcode.productId
           && r.value.product == MapRowToProduct(products[k])
  {
    if barcodes == [] then None
    else
      var b := barcodes[0];
      var owner := FindProduct(products, b.productId);
      if b.code == code && owner.Some? then
        Some(Lookup(MapRowToProduct(products[owner.value]), b))
      else
        var rest := ProductByBarcode(products, barcodes[1..], code);
        assert forall i :: 1 <= i < |barcodes| ==> barcodes[i] == barcodes[1..][i - 1];
        rest
  }

  /** Resolution is unambiguous: under the unique code and unique id
      constraints, a code on a barcode whose product exists resolves to exactly
      that barcode and product. */
  lemma ResolveUnique(products: seq<ProductRow>, barcodes: seq<Barcode>, bound: nat, i: nat, k: nat)
    requires ProductKeys(products, bound) && CodesUnique(barcodes)
    requires i < |barcodes| && k < |products| && products[k].id == barcodes[i].productId
    ensures ProductByBarcode(products, barcodes, barcodes[i].code)
            == Some(Lookup(MapRowToProduct(products[k]), barcodes[i]))
  {
    var r := ProductByBarcode(products, barcodes, barcodes[i].code);
    assert r.Some?;
    var j :| 0 <= j < |barcodes| && barcodes[j] == r.value.barcode;
    CodeIndexUnique(barcodes, j, i);
    var k' :| 0 <= k' < |products| && products[k'].id == r.value.barcode.productId
             && r.value.product == MapRowToProduct(products[k']);
    ProductIndexUnique(products, bound, k', k);
  }

  /** After a successful addBarcode(p, code) onto a valid table, `code`
      resolves to the new barcode and the product p. */
  lemma ResolveAfterAdd(products: seq<ProductRow>, barcodes: seq<Barcode>, bound: nat, b: Barcode, k: nat)
    requires ProductKeys(products, bound) && CodesUnique(barcodes)
    requires !CodeTaken(barcodes, b.code)
    requires k < |products| && products[k].id == b.productId
    ensures CodesUnique(barcodes + [b])
    ensures ProductByBarcode(products, barcodes + [b], b.code) == Some(Lookup(MapRowToProduct(products[k]), b))
  {
    var bs := barcodes + [b];
    assert bs[|barcodes|] == b;
    ResolveUnique(products, bs, bound, |barcodes|, k);
  }

  /** A freshly created row reads back with the volume it was given and its
      unit, except that an ml product of volume 0 reads as litres. */
  lemma CreatedRowReadsBack(id: nat, input: NewProduct, now: nat)
    ensures var p := MapRowToProduct(NewRow(id, input, now));
      && p.id == id && p.createdAt == now && p.updatedAt == now
      && p.title == input.title && p.price == input.price && p.category == input.category
      && p.cost == input.cost && p.sku == input.sku && p.defaultBarcodeId == None
      && p.volume == input.volume
      && (p.volumeUnit == input.volumeUnit <==> !(input.volumeUnit == Ml && input.volume == 0))
  {
  }

  /** Every field absent from an update's patch keeps its stored value; id and
      created_at never change; updated_at becomes now. */
  lemma PatchedRowKeeps(existing: ProductRow, patch: ProductPatch, now: nat)
    ensures var row := PatchedRow(existing, patch, now);
      && row.id == existing.id && row.createdAt == existing.createdAt && row.updatedAt == now
      && (patch.title.None? ==> row.title == existing.title)
      && (patch.category.None? ==> row.category == existing.category)
      && (patch.price.None? ==> row.price == existing.price)
      && (patch.cost.None? ==> row.cost == existing.cost)
      && (patch.sku.None? ==> row.sku == existing.sku)
      && (patch.defaultBarcodeId.None? ==> row.defaultBarcodeId == existing.defaultBarcodeId)
      && (patch.title.Some? ==> row.title == patch.title.value)
      && (patch.price.Some? ==> row.price == patch.price.value)
      && (patch.sku.Some? ==> row.sku == patch.sku)
      && (patch.volumeUnit.None? ==>
            row.volumeMl == Some(existing.volumeMl.GetOr(0)) && row.volumeL == Some(existing.volumeL.GetOr(0)))
  {
  }

  /** What an update that names a unit leaves behind: the other unit's column
      is kept, so a product switched from ml to litres still reads as ml with
      its old volume. */
  lemma UnitSwitchKeepsMl(existing: ProductRow, patch: ProductPatch, now: nat)
    requires existing.volumeMl.Some? && existing.volumeMl.value != 0
    requires patch.volumeUnit == Some(L)
    ensures var p := MapRowToProduct(PatchedRow(existing, patch, now));
      p.volumeUnit == Ml && p.volume == existing.volumeMl.value
  {
  }

  /** A litre product reads back with volume 0 once any update has rewritten it
      without naming a unit. */
  lemma UpdatedLitreReadsZero(existing: ProductRow, patch: ProductPatch, now: nat)
    requires existing.volumeMl.None? && patch.volumeUnit.None?
    ensures var p := MapRowToProduct(PatchedRow(existing, patch, now));
      p.volumeUnit == L && p.volume == 0
  {
  }
}
