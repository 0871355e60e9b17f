/**
  The read-only reports, after app/src/backend/services/reports.ts: the
  earnings total over a period and the sales of the period grouped by product
  (inner join on the product table), ordered by revenue, descending.
 */
module Reports {
  import opened Types
  import opened Sorting
  import opened Schema
  import opened Products

  function Amount(e: EarningsLog): int {
    e.amount
  }

  /** earningsSummary: the sum of `amount` over the entries with
      `from <= created_at <= to`; 0 when none matches (`SUM` of no rows is
      NULL, and the source reports NULL as 0). */
  function EarningsSummary(earnings: seq<EarningsLog>, filters: ReportFilters): (total: int)
    ensures (forall i :: 0 <= i < |earnings| ==> !InRange(earnings[i].createdAt, filters)) ==> total == 0
  {
    if earnings == [] then 0
    else
      assert forall i :: 1 <= i < |earnings| ==> earnings[1..][i - 1] == earnings[i];
      (if InRange(earnings[0].createdAt, filters) then earnings[0].amount else 0)
        + EarningsSummary(earnings[1..], filters)
  }

  /** A new entry adds its amount to the total of every period containing its time, and nothing otherwise. */
  lemma {:induction false} EarningsSummaryAppend(earnings: seq<EarningsLog>, e: EarningsLog, filters: ReportFilters)
    ensures EarningsSummary(earnings + [e], filters)
            == EarningsSummary(earnings, filters) + (if InRange(e.createdAt, filters) then e.amount else 0)
  {
    if earnings != [] {
      assert (earnings + [e])[1..] == earnings[1..] + [e];
      EarningsSummaryAppend(earnings[1..], e, filters);
    }
  }

  /** Without bounds the total is the sum of every amount. */
  lemma {:induction false} UnboundedSummary(earnings: seq<EarningsLog>)
    ensures EarningsSummary(earnings, ReportFilters(None, None)) == SumOf(earnings, Amount)
  {
    if earnings != [] {
      UnboundedSummary(earnings[1..]);
    }
  }

  /** The sales that enter the product report: inside the bounds and with a
      product row to join. */
  function Reportable(products: seq<ProductRow>, sales: seq<SaleRecord>, filters: ReportFilters)
    : (r: seq<SaleRecord>)
    ensures forall j :: 0 <= j < |r| ==>
      InRange(r[j].createdAt, filters) && FindProduct(products, r[j].productId).Some?
    ensures forall s :: s in r <==>
      s in sales && InRange(s.createdAt, filters) && FindProduct(products, s.productId).Some?
  {
    if sales == [] then []
    else
      assert forall s :: s in sales <==> s == sales[0] || s in sales[1..];
      (if InRange(sales[0].createdAt, filters) && FindProduct(products, sales[0].productId).Some?
       then [sales[0]] else [])
        + Reportable(products, sales[1..], filters)
  }

  /** The filter keeps each reportable sale as often as it is stored and drops
      every other. */
  lemma {:induction false} ReportableCounts(products: seq<ProductRow>, sales: seq<SaleRecord>,
                                            filters: ReportFilters, s: SaleRecord)
    ensures multiset(Reportable(products, sales, filters))[s] ==
      if InRange(s.createdAt, filters) && FindProduct(products, s.productId).Some?
      then multiset(sales)[s] else 0
  {
    if sales != [] {
      ReportableCounts(products, sales[1..], filters, s);
      assert sales == [sales[0]] + sales[1..];
    }
  }

  /** Some sale in `rs` is of product `pid`. */
  ghost predicate Sold(rs: seq<SaleRecord>, pid: nat) {
    exists j :: 0 <= j < |rs| && rs[j].productId == pid
  }

  /** `SUM(s.units)` over the sales of `pid`. */
  function UnitsOf(rs: seq<SaleRecord>, pid: nat): int {
    if rs == [] then 0 else (if rs[0].productId == pid then rs[0].units else 0) + UnitsOf(rs[1..], pid)
  }

  /** `SUM(s.units * s.unit_price)` over the sales of `pid`. */
  function RevenueOf(rs: seq<SaleRecord>, pid: nat): int {
    if rs == [] then 0 else (if rs[0].productId == pid then Revenue(rs[0]) else 0) + RevenueOf(rs[1..], pid)
  }

  lemma {:induction false} SoldCons(rs: seq<SaleRecord>, pid: nat)
    requires rs != []
    ensures Sold(rs, pid) <==> rs[0].productId == pid || Sold(rs[1..], pid)
  {
    if Sold(rs[1..], pid) {
      var j :| 0 <= j < |rs[1..]| && rs[1..][j].productId == pid;
      assert rs[j + 1].productId == pid;
    }
    if Sold(rs, pid) && rs[0].productId != pid {
      var j :| 0 <= j < |rs| && rs[j].productId == pid;
      assert rs[1..][j - 1].productId == pid;
    }
  }

  /** A product without sales sums to nothing. */
  lemma {:induction false} UnsoldSumsZero(rs: seq<SaleRecord>, pid: nat)
    requires !Sold(rs, pid)
    ensures UnitsOf(rs, pid) == 0 && RevenueOf(rs, pid) == 0
  {
    if rs != [] {
      SoldCons(rs, pid);
      UnsoldSumsZero(rs[1..], pid);
    }
  }

  function ItemRevenue(item: SalesReportItem): int {
    item.revenue
  }

  function ItemProduct(item: SalesReportItem): int {
    item.productId
  }

  /** The first report line of product `pid`. */
  function FindItem(items: seq<SalesReportItem>, pid: nat): (i: Option<nat>)
    ensures i.Some? ==> i.value < |items| && items[i.value].productId == pid
    ensures i.None? ==> forall j :: 0 <= j < |items| ==> items[j].productId != pid
  {
    if items == [] then None
    else if items[0].productId == pid then Some(0)
    else
      match FindItem(items[1..], pid)
      case None => None
      case Some(j) => Some(j + 1)
  }

  /** `p.title` of the joined product ("" for a product that is not there, which the join never lets through). */
  function TitleOf(products: seq<ProductRow>, pid: nat): string {
    match FindProduct(products, pid)
    case Some(k) => products[k].title
    case None => ""
  }

  /** Adds one sale to its product's line, opening the line if it is the product's first. */
  function AddToGroup(items: seq<SalesReportItem>, s: SaleRecord, title: string): seq<SalesReportItem> {
    match FindItem(items, s.productId)
    case Some(i) =>
      items[i := items[i].(revenue := items[i].revenue + Revenue(s), units := items[i].units + s.units)]
    case None => items + [SalesReportItem(s.productId, title, Revenue(s), s.units)]
  }

  /** `GROUP BY s.product_id, p.title`. */
  function Group(products: seq<ProductRow>, rs: seq<SaleRecord>): seq<SalesReportItem> {
    if rs == [] then []
    else AddToGroup(Group(products, rs[1..]), rs[0], TitleOf(products, rs[0].productId))
  }

  /** A report line holds the totals of its product over `rs`, and the product was sold there. */
  ghost predicate LineOf(item: SalesReportItem, products: seq<ProductRow>, rs: seq<SaleRecord>) {
    && item.units == UnitsOf(rs, item.productId)
    && item.revenue == RevenueOf(rs, item.productId)
    && item.title == TitleOf(products, item.productId)
    && Sold(rs, item.productId)
  }

  /** Some line of `items` is of product `pid`. */
  ghost predicate Listed(items: seq<SalesReportItem>, pid: nat) {
    exists i :: 0 <= i < |items| && items[i].productId == pid
  }

  /** Every group line is one product's total, every sold product has one line, and no product two. */
  ghost predicate GroupsOf(items: seq<SalesReportItem>, products: seq<ProductRow>, rs: seq<SaleRecord>) {
    && DistinctBy(items, ItemProduct)
    && (forall i :: 0 <= i < |items| ==> LineOf(items[i], products, rs))
    && (forall pid: nat :: Sold(rs, pid) ==> Listed(items, pid))
  }

  /** Adding a sale to the line its product already has. */
  lemma AddToExistingLine(items: seq<SalesReportItem>, products: seq<ProductRow>, rs: seq<SaleRecord>, k: nat)
    requires rs != [] && GroupsOf(items, products, rs[1..])
    requires k < |items| && items[k].productId == rs[0].productId
    ensures GroupsOf(items[k := items[k].(revenue := items[k].revenue + Revenue(rs[0]),
                                          units := items[k].units + rs[0].units)], products, rs)
  {
    var s := rs[0];
    var g := items[k := items[k].(revenue := items[k].revenue + Revenue(s), units := items[k].units + s.units)];
    forall i | 0 <= i < |g|
      ensures LineOf(g[i], products, rs)
    {
      if i == k {
        SoldCons(rs, s.productId);
      } else {
        OtherLineKept(items[i], products, rs, s.productId);
      }
    }
    forall pid: nat | Sold(rs, pid)
      ensures Listed(g, pid)
    {
      SoldCons(rs, pid);
      if pid == s.productId {
        assert g[k].productId == pid;
      } else {
        assert Listed(items, pid);
        var i :| 0 <= i < |items| && items[i].productId == pid;
        assert g[i].productId == pid;
      }
    }
  }

  /** The line of a product other than that of the first sale is the same over `rs` as over the rest. */
  lemma OtherLineKept(item: SalesReportItem, products: seq<ProductRow>, rs: seq<SaleRecord>, pid: nat)
    requires rs != [] && rs[0].productId == pid && item.productId != pid
    requires LineOf(item, products, rs[1..])
    ensures LineOf(item, products, rs)
  {
    SoldCons(rs, item.productId);
  }

  /** Opening the line of a product's first sale. */
  lemma AddNewLine(items: seq<SalesReportItem>, products: seq<ProductRow>, rs: seq<SaleRecord>)
    requires rs != [] && GroupsOf(items, products, rs[1..])
    requires forall j :: 0 <= j < |items| ==> items[j].productId != rs[0].productId
    ensures GroupsOf(items + [SalesReportItem(rs[0].productId, TitleOf(products, rs[0].productId),
                                              Revenue(rs[0]), rs[0].units)], products, rs)
  {
    var s := rs[0];
    var item := SalesReportItem(s.productId, TitleOf(products, s.productId), Revenue(s), s.units);
    var g := items + [item];
    assert !Sold(rs[1..], s.productId);
    UnsoldSumsZero(rs[1..], s.productId);
    forall i | 0 <= i < |g|
      ensures LineOf(g[i], products, rs)
    {
      SoldCons(rs, g[i].productId);
      if i < |items| {
        assert g[i] == items[i];
      }
    }
    forall pid: nat | Sold(rs, pid)
      ensures Listed(g, pid)
    {
      SoldCons(rs, pid);
      if pid == s.productId {
        assert g[|items|].productId == pid;
      } else {
        assert Listed(items, pid);
        var i :| 0 <= i < |items| && items[i].productId == pid;
        assert g[i].productId == pid;
      }
    }
  }

  lemma {:induction false} GroupCorrect(products: seq<ProductRow>, rs: seq<SaleRecord>)
    ensures GroupsOf(Group(products, rs), products, rs)
  {
    if rs != [] {
      var g' := Group(products, rs[1..]);
      GroupCorrect(products, rs[1..]);
      assert Group(products, rs) == AddToGroup(g', rs[0], TitleOf(products, rs[0].productId));
      AddToGroupCorrect(g', products, rs);
    }
  }

  /** Adding the first sale of `rs` to the groups of the rest gives the groups of `rs`. */
  lemma AddToGroupCorrect(items: seq<SalesReportItem>, products: seq<ProductRow>, rs: seq<SaleRecord>)
    requires rs != [] && GroupsOf(items, products, rs[1..])
    ensures GroupsOf(AddToGroup(items, rs[0], TitleOf(products, rs[0].productId)), products, rs)
  {
    match FindItem(items, rs[0].productId)
    case Some(k) =>
      AddToExistingLine(items, products, rs, k);
    case None =>
      AddNewLine(items, products, rs);
  }

  /** Grouping keeps the total revenue. */
  lemma {:induction false} GroupRevenue(products: seq<ProductRow>, rs: seq<SaleRecord>)
    ensures SumOf(Group(products, rs), ItemRevenue) == SumOf(rs, Revenue)
  {
    if rs != [] {
      GroupRevenue(products, rs[1..]);
      var g' := Group(products, rs[1..]);
      var s := rs[0];
      match FindItem(g', s.productId)
      case Some(k) =>
        SumUpdate(g', k, g'[k].(revenue := g'[k].revenue + Revenue(s), units := g'[k].units + s.units), ItemRevenue);
      case None =>
        SumAppend(g', SalesReportItem(s.productId, TitleOf(products, s.productId), Revenue(s), s.units), ItemRevenue);
    }
  }

  /** salesByProduct: the product groups of the reportable sales of the
      period, in non-increasing revenue order. */
  function SalesByProduct(products: seq<ProductRow>, sales: seq<SaleRecord>, filters: ReportFilters)
    : (r: seq<SalesReportItem>)
    ensures GroupsOf(r, products, Reportable(products, sales, filters))
    ensures SortedDesc(r, ItemRevenue)
  {
    var rs := Reportable(products, sales, filters);
    var g := Group(products, rs);
    GroupCorrect(products, rs);
    SortedGroups(g, products, rs, SortDesc(g, ItemRevenue));
    SortDesc(g, ItemRevenue)
  }

  /** What salesByProduct reports, in terms of the tables: one line per product
      that has a sale in the period and a row to join, carrying the product's
      title, units and revenue over the period, no product twice, in
      non-increasing revenue order. */
  lemma SalesByProductSpec(products: seq<ProductRow>, sales: seq<SaleRecord>, filters: ReportFilters)
    ensures var r := SalesByProduct(products, sales, filters);
      && (forall i, j :: 0 <= i < j < |r| ==> r[i].revenue >= r[j].revenue)
      && (forall i, j :: 0 <= i < j < |r| ==> r[i].productId != r[j].productId)
    ensures var r := SalesByProduct(products, sales, filters);
      forall i :: 0 <= i < |r| ==>
        && r[i].units == UnitsOf(Reportable(products, sales, filters), r[i].productId)
        && r[i].revenue == RevenueOf(Reportable(products, sales, filters), r[i].productId)
        && (exists k :: 0 <= k < |products| && products[k].id == r[i].productId && r[i].title == products[k].title)
    ensures var r := SalesByProduct(products, sales, filters);
      forall pid: nat ::
        (exists i :: 0 <= i < |r| && r[i].productId == pid) <==>
        (exists j :: 0 <= j < |sales| && sales[j].productId == pid && InRange(sales[j].createdAt, filters)
                     && FindProduct(products, pid).Some?)
  {
    var r := SalesByProduct(products, sales, filters);
    LinesInOrder(r, products, Reportable(products, sales, filters));
    ReportLines(products, sales, filters, r);
  }

  /** Ordering the groups by revenue keeps them the groups and puts them in order. */
  lemma SortedGroups(g: seq<SalesReportItem>, products: seq<ProductRow>, rs: seq<SaleRecord>, r: seq<SalesReportItem>)
    requires GroupsOf(g, products, rs) && r == SortDesc(g, ItemRevenue)
    ensures GroupsOf(r, products, rs) && SortedDesc(r, ItemRevenue)
  {
    SortDescSorted(g, ItemRevenue);
    SortDescDistinct(g, ItemRevenue, ItemProduct);
    PermutedGroups(g, r, products, rs);
  }

  lemma LinesInOrder(r: seq<SalesReportItem>, products: seq<ProductRow>, rs: seq<SaleRecord>)
    requires SortedDesc(r, ItemRevenue) && GroupsOf(r, products, rs)
    ensures forall i, j :: 0 <= i < j < |r| ==> r[i].revenue >= r[j].revenue
    ensures forall i, j :: 0 <= i < j < |r| ==> r[i].productId != r[j].productId
  {
    forall i, j | 0 <= i < j < |r|
      ensures r[i].revenue >= r[j].revenue && r[i].productId != r[j].productId
    {
      assert ItemRevenue(r[i]) >= ItemRevenue(r[j]);
      assert ItemProduct(r[i]) != ItemProduct(r[j]);
    }
  }

  /** The lines of a reordering of the groups are still the groups. */
  lemma PermutedGroups(g: seq<SalesReportItem>, r: seq<SalesReportItem>, products: seq<ProductRow>, rs: seq<SaleRecord>)
    requires GroupsOf(g, products, rs) && multiset(r) == multiset(g) && DistinctBy(r, ItemProduct)
    ensures GroupsOf(r, products, rs)
  {
    forall i | 0 <= i < |r|
      ensures LineOf(r[i], products, rs)
    {
      assert r[i] in multiset(g);
      var j :| 0 <= j < |g| && g[j] == r[i];
    }
    forall pid: nat | Sold(rs, pid)
      ensures Listed(r, pid)
    {
      assert Listed(g, pid);
      var j :| 0 <= j < |g| && g[j].productId == pid;
      assert g[j] in multiset(r);
      var i :| 0 <= i < |r| && r[i] == g[j];
    }
  }

  /** Reads the group facts of the report's lines in terms of the sales table. */
  lemma ReportLines(products: seq<ProductRow>, sales: seq<SaleRecord>, filters: ReportFilters, r: seq<SalesReportItem>)
    requires GroupsOf(r, products, Reportable(products, sales, filters))
    ensures forall i :: 0 <= i < |r| ==>
      && r[i].units == UnitsOf(Reportable(products, sales, filters), r[i].productId)
      && r[i].revenue == RevenueOf(Reportable(products, sales, filters), r[i].productId)
      && (exists k :: 0 <= k < |products| && products[k].id == r[i].productId && r[i].title == products[k].title)
    ensures forall pid: nat ::
      (exists i :: 0 <= i < |r| && r[i].productId == pid) <==>
      (exists j :: 0 <= j < |sales| && sales[j].productId == pid && InRange(sales[j].createdAt, filters)
                   && FindProduct(products, pid).Some?)
  {
    var rs := Reportable(products, sales, filters);
    SameSaleIsReportable(products, sales, filters);
    forall i | 0 <= i < |r|
      ensures exists k :: 0 <= k < |products| && products[k].id == r[i].productId && r[i].title == products[k].title
    {
      assert LineOf(r[i], products, rs);
      var j :| 0 <= j < |rs| && rs[j].productId == r[i].productId;
      var k := FindProduct(products, rs[j].productId).value;
      assert products[k].id == r[i].productId && r[i].title == products[k].title;
    }
    forall pid: nat
      ensures Listed(r, pid) <==> Sold(rs, pid)
    {
      if Listed(r, pid) {
        var i :| 0 <= i < |r| && r[i].productId == pid;
        assert LineOf(r[i], products, rs);
      }
    }
  }

  /** A product is sold in the report's rows exactly when it has a sale in range and a row to join. */
  lemma SameSaleIsReportable(products: seq<ProductRow>, sales: seq<SaleRecord>, filters: ReportFilters)
    ensures forall pid: nat :: Sold(Reportable(products, sales, filters), pid) <==>
      (exists j :: 0 <= j < |sales| && sales[j].productId == pid && InRange(sales[j].createdAt, filters)
                   && FindProduct(products, pid).Some?)
  {
    var rs := Reportable(products, sales, filters);
    forall pid: nat
      ensures Sold(rs, pid) <==>
        (exists j :: 0 <= j < |sales| && sales[j].productId == pid && InRange(sales[j].createdAt, filters)
                     && FindProduct(products, pid).Some?)
    {
      if Sold(rs, pid) {
        ReportedSaleIsStored(products, sales, filters, pid);
      }
      if exists j :: 0 <= j < |sales| && sales[j].productId == pid && InRange(sales[j].createdAt, filters)
                     && FindProduct(products, pid).Some? {
        var j :| 0 <= j < |sales| && sales[j].productId == pid && InRange(sales[j].createdAt, filters)
                 && FindProduct(products, pid).Some?;
        StoredSaleIsReported(products, sales, filters, j);
      }
    }
  }

  /** A reported sale of `pid` is a stored sale of `pid` inside the bounds, and `pid` has a row. */
  lemma ReportedSaleIsStored(products: seq<ProductRow>, sales: seq<SaleRecord>, filters: ReportFilters, pid: nat)
    requires Sold(Reportable(products, sales, filters), pid)
    ensures exists j :: 0 <= j < |sales| && sales[j].productId == pid && InRange(sales[j].createdAt, filters)
                        && FindProduct(products, pid).Some?
  {
    var rs := Reportable(products, sales, filters);
    var j :| 0 <= j < |rs| && rs[j].productId == pid;
    assert rs[j] in rs;
    var j' :| 0 <= j' < |sales| && sales[j'] == rs[j];
    assert sales[j'].productId == pid;
  }

  /** A stored sale inside the bounds whose product has a row is reported. */
  lemma StoredSaleIsReported(products: seq<ProductRow>, sales: seq<SaleRecord>, filters: ReportFilters, j: nat)
    requires j < |sales| && InRange(sales[j].createdAt, filters) && FindProduct(products, sales[j].productId).Some?
    ensures Sold(Reportable(products, sales, filters), sales[j].productId)
  {
    var rs := Reportable(products, sales, filters);
    assert sales[j] in rs;
    var j' :| 0 <= j' < |rs| && rs[j'] == sales[j];
  }

  /** A period with no sale in it (for one, from after to) reports no line. */
  lemma EmptyPeriodReportsNothing(products: seq<ProductRow>, sales: seq<SaleRecord>, filters: ReportFilters)
    requires forall j :: 0 <= j < |sales| ==> !InRange(sales[j].createdAt, filters)
    ensures SalesByProduct(products, sales, filters) == []
  {
    SalesByProductSpec(products, sales, filters);
  }

  lemma InvertedPeriodReportsNothing(products: seq<ProductRow>, sales: seq<SaleRecord>, from: nat, to: nat)
    requires to < from
    ensures SalesByProduct(products, sales, ReportFilters(Some(from), Some(to))) == []
    ensures forall earnings :: EarningsSummary(earnings, ReportFilters(Some(from), Some(to))) == 0
  {
    EmptyPeriodReportsNothing(products, sales, ReportFilters(Some(from), Some(to)));
  }

  /** Linked earnings sum to the revenue of their sales. */
  lemma {:induction false} LinkedEarningsRevenue(sales: seq<SaleRecord>, earnings: seq<EarningsLog>)
    requires EarningsLinked(sales, earnings)
    ensures SumOf(earnings, Amount) == SumOf(sales, Revenue)
  {
    if sales != [] {
      assert EarningsLinked(sales[1..], earnings[1..]) by {
        forall i | 0 <= i < |sales[1..]|
          ensures Books(earnings[1..][i], sales[1..][i])
        {
          assert Books(earnings[i + 1], sales[i + 1]);
        }
      }
      LinkedEarningsRevenue(sales[1..], earnings[1..]);
      assert Books(earnings[0], sales[0]);
    }
  }

  /** With no bounds and every sold product still present, every sale is reportable. */
  lemma {:induction false} AllReportable(products: seq<ProductRow>, sales: seq<SaleRecord>)
    requires forall j :: 0 <= j < |sales| ==> FindProduct(products, sales[j].productId).Some?
    ensures Reportable(products, sales, ReportFilters(None, None)) == sales
  {
    if sales != [] {
      AllReportable(products, sales[1..]);
    }
  }

  /** With no bounds and while every sold product exists, the product report's
      revenues add up to the earnings total. */
  lemma ReportsAgree(db: Database)
    requires db.Valid()
    requires forall j :: 0 <= j < |db.sales| ==> FindProduct(db.products, db.sales[j].productId).Some?
    ensures SumOf(SalesByProduct(db.products, db.sales, ReportFilters(None, None)), ItemRevenue)
            == EarningsSummary(db.earnings, ReportFilters(None, None))
  {
    AllReportable(db.products, db.sales);
    var g := Group(db.products, db.sales);
    SortDescSum(g, ItemRevenue, ItemRevenue);
    GroupRevenue(db.products, db.sales);
    LinkedEarningsRevenue(db.sales, db.earnings);
    UnboundedSummary(db.earnings);
  }
}
