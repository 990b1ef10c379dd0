/**
 * The synthetic-data generator (etl/generate_data.py): the fixed supplier
 * table, the weekly purchase-order loop with its running `po_id` counter and
 * the daily inventory-depletion loop with its running stock.
 *
 * Dates are day numbers, so `d + timedelta(days=7)` is `d + 7`. Every random
 * draw (lead times, order quantities, starting stock, daily sales) is an
 * input sequence consumed in the order the generator draws it.
 */
module GenerateData {

  /** `supplier_id` runs over `range(1, 6)`. */
  const SupplierCount: int := 5
  /** The literal minimum-order-quantity column of the supplier table. */
  const MinOrderQtys: seq<int> := [10, 20, 30, 40, 50]
  /** `dates[::7]`: one order date out of every seven. */
  const OrderEvery: int := 7
  /** Promised and received dates are the order date plus seven days. */
  const DeliveryDays: int := 7

  datatype SupplierRecord = SupplierRecord(supplierId: int, name: string, leadTimeDays: int, minOrderQty: int)
  datatype ProductRecord = ProductRecord(productId: int, supplierId: int)
  datatype SaleRecord = SaleRecord(dt: int, productId: int, units: int)
  datatype PurchaseOrder = PurchaseOrder(
    poId: int, productId: int, supplierId: int,
    orderDate: int, promisedDate: int, receivedDate: int,
    qtyOrdered: int, qtyReceived: int)
  datatype InventoryRecord = InventoryRecord(dt: int, productId: int, qtyOnHand: int)

  // ---------------------------------------------------------------------------
  // Suppliers
  // ---------------------------------------------------------------------------

  /** `f"Supplier {i}"` for a one-digit id. */
  function SupplierName(id: int): (name: string)
    requires 0 <= id <= 9
    ensures |name| == 10 && name[..9] == "Supplier "
    ensures '0' <= name[9] <= '9' && name[9] as int - '0' as int == id
  {
    "Supplier " + [(48 + id) as char]
  }

  /** The supplier table, from the five drawn lead times. */
  function Suppliers(leadTimeDraws: seq<int>): (table: seq<SupplierRecord>)
    requires |leadTimeDraws| == SupplierCount
    ensures |table| == SupplierCount
    ensures forall i | 0 <= i < |table| ::
      && table[i].supplierId == i + 1
      && table[i].minOrderQty == 10 * (i + 1)
      && table[i].leadTimeDays == leadTimeDraws[i]
  {
    seq(SupplierCount, i requires 0 <= i < SupplierCount =>
      SupplierRecord(i + 1, SupplierName(i + 1), leadTimeDraws[i], MinOrderQtys[i]))
  }

  // ---------------------------------------------------------------------------
  // Purchase orders
  // ---------------------------------------------------------------------------

  /** `dates[::7]`, with ⌈|dates| / 7⌉ entries. */
  function WeeklyDates(dates: seq<int>): (weeks: seq<int>)
    ensures |weeks| == (|dates| + OrderEvery - 1) / OrderEvery
    ensures forall k | 0 <= k < |weeks| :: OrderEvery * k < |dates| && weeks[k] == dates[OrderEvery * k]
    decreases |dates|
  {
    if dates == [] then []
    else [dates[0]] + WeeklyDates(if |dates| <= OrderEvery then [] else dates[OrderEvery..])
  }

  /** `products.loc[products.product_id == pid, "supplier_id"].iloc[0]`: the supplier of the first row with that id. */
  function SupplierOf(products: seq<ProductRecord>, pid: int): (s: int)
    requires exists k | 0 <= k < |products| :: products[k].productId == pid
    ensures exists k | 0 <= k < |products| ::
      && products[k].productId == pid && products[k].supplierId == s
      && forall j | 0 <= j < k :: products[j].productId != pid
  {
    if products[0].productId == pid then products[0].supplierId
    else
      var rest := products[1..];
      assert exists k | 0 <= k < |rest| :: rest[k].productId == pid by {
        var k :| 0 <= k < |products| && products[k].productId == pid;
        assert rest[k - 1] == products[k];
      }
      var s := SupplierOf(rest, pid);
      assert exists k | 0 <= k < |products| ::
        && products[k].productId == pid && products[k].supplierId == s
        && forall j | 0 <= j < k :: products[j].productId != pid
      by {
        var k :| 0 <= k < |rest| && rest[k].productId == pid && rest[k].supplierId == s
          && forall j | 0 <= j < k :: rest[j].productId != pid;
        assert products[k + 1] == rest[k];
        assert forall j | 1 <= j < k + 1 :: products[j] == rest[j - 1];
      }
      s
  }

  /** No two product rows share an id (the generator numbers them 1..20). */
  ghost predicate UniqueProductIds(products: seq<ProductRecord>)
  {
    forall i, j | 0 <= i < j < |products| :: products[i].productId != products[j].productId
  }

  /** With unique ids the lookup returns the row's own supplier. */
  lemma SupplierOfOwnRow(products: seq<ProductRecord>, i: int)
    requires UniqueProductIds(products) && 0 <= i < |products|
    ensures SupplierOf(products, products[i].productId) == products[i].supplierId
  {
    var s := SupplierOf(products, products[i].productId);
    var k :| 0 <= k < |products| && products[k].productId == products[i].productId && products[k].supplierId == s
      && forall j | 0 <= j < k :: products[j].productId != products[i].productId;
    assert k == i;
  }

  /**
   * The record for the j-th order date of the i-th product. The running
   * counter has the value i·W + j + 1 there, and the quantity is the
   * (i·W + j)-th draw of the order-quantity stream.
   */
  function OrderFor(products: seq<ProductRecord>, weeks: seq<int>, qtyDraw: nat -> int, i: int, j: int): (po: PurchaseOrder)
    requires 0 <= i < |products| && 0 <= j < |weeks|
    ensures po.productId == products[i].productId && po.orderDate == weeks[j]
    ensures exists k | 0 <= k < |products| :: products[k].productId == po.productId && products[k].supplierId == po.supplierId
    ensures po.promisedDate == po.receivedDate == po.orderDate + DeliveryDays
    ensures po.qtyReceived == po.qtyOrdered
  {
    ProductStride(i, |weeks|);
    var n: nat := i * |weeks| + j;
    var d := weeks[j];
    // the product's own row witnesses the lookup's precondition
    assert exists k | 0 <= k < |products| :: products[k].productId == products[i].productId;
    PurchaseOrder(
      n + 1, products[i].productId, SupplierOf(products, products[i].productId),
      d, d + DeliveryDays, d + DeliveryDays, qtyDraw(n), qtyDraw(n))
  }

  /** The orders of the i-th product, one per weekly date. */
  function ProductOrders(products: seq<ProductRecord>, weeks: seq<int>, qtyDraw: nat -> int, i: int): (rows: seq<PurchaseOrder>)
    requires 0 <= i < |products|
    ensures |rows| == |weeks|
  {
    seq(|weeks|, j requires 0 <= j < |weeks| => OrderFor(products, weeks, qtyDraw, i, j))
  }

  lemma PrefixExtend<T>(s: seq<T>, j: int)
    requires 0 <= j < |s|
    ensures s[..j + 1] == s[..j] + [s[j]]
  {
  }

  lemma ProductStride(n: int, w: int)
    requires 0 <= n && 0 <= w
    ensures (n + 1) * w == n * w + w
    ensures n * w >= 0
  {
  }

  lemma ProductOrdersAt(products: seq<ProductRecord>, weeks: seq<int>, qtyDraw: nat -> int, i: int, j: int)
    requires 0 <= i < |products| && 0 <= j < |weeks|
    ensures ProductOrders(products, weeks, qtyDraw, i)[j] == OrderFor(products, weeks, qtyDraw, i, j)
  {
  }

  /** The orders of the first n products, products outer and dates inner: one per product and weekly date. */
  function OrdersUpTo(products: seq<ProductRecord>, weeks: seq<int>, qtyDraw: nat -> int, n: int): (pos: seq<PurchaseOrder>)
    requires 0 <= n <= |products|
    ensures |pos| == n * |weeks|
  {
    if n == 0 then []
    else
      ProductStride(n - 1, |weeks|);
      OrdersUpTo(products, weeks, qtyDraw, n - 1) + ProductOrders(products, weeks, qtyDraw, n - 1)
  }

  /** The purchase-order table the generator writes. */
  function PurchaseOrders(products: seq<ProductRecord>, dates: seq<int>, qtyDraw: nat -> int): (pos: seq<PurchaseOrder>)
    ensures |pos| == |products| * ((|dates| + OrderEvery - 1) / OrderEvery)
  {
    OrdersUpTo(products, WeeklyDates(dates), qtyDraw, |products|)
  }

  /** The nested loop over products and weekly dates with the running `po_id` counter. */
  method GeneratePurchaseOrders(products: seq<ProductRecord>, dates: seq<int>, qtyDraw: nat -> int)
    returns (poRecords: seq<PurchaseOrder>)
    ensures poRecords == PurchaseOrders(products, dates, qtyDraw)
  {
    var weeks := WeeklyDates(dates);
    var w := |weeks|;
    poRecords := [];
    var poId := 1;
    for i := 0 to |products|
      invariant poRecords == OrdersUpTo(products, weeks, qtyDraw, i)
      invariant poId == i * w + 1
    {
      ProductStride(i, w);
      ghost var base := i * w;
      ghost var done := OrdersUpTo(products, weeks, qtyDraw, i);
      ghost var mine := ProductOrders(products, weeks, qtyDraw, i);
      for j := 0 to w
        invariant poRecords == done + mine[..j]
        invariant poId == base + j + 1
      {
        var qty := qtyDraw(poId - 1);
        var pid := products[i].productId;
        // the product's own row witnesses the lookup's precondition
        assert exists k | 0 <= k < |products| :: products[k].productId == pid;
        var supplierId := SupplierOf(products, pid);
        var d := weeks[j];
        var po := PurchaseOrder(poId, pid, supplierId, d, d + DeliveryDays, d + DeliveryDays, qty, qty);
        ProductOrdersAt(products, weeks, qtyDraw, i, j);
        PrefixExtend(mine, j);
        poRecords := poRecords + [po];
        poId := poId + 1;
      }
      assert mine[..w] == mine;
    }
  }

  /**
   * The fields of every record: ids 1, 2, 3, ... in table order, promised
   * and received dates seven days after the order date, and the received
   * quantity equal to the ordered one, drawn in id order.
   */
  lemma {:induction false} OrdersUpToFields(products: seq<ProductRecord>, weeks: seq<int>, qtyDraw: nat -> int, n: int)
    requires 0 <= n <= |products|
    ensures forall k | 0 <= k < |OrdersUpTo(products, weeks, qtyDraw, n)| ::
      var po := OrdersUpTo(products, weeks, qtyDraw, n)[k];
      && po.poId == k + 1
      && po.promisedDate == po.orderDate + DeliveryDays
      && po.receivedDate == po.promisedDate
      && po.qtyOrdered == po.qtyReceived == qtyDraw(k)
  {
    if n > 0 {
      ProductStride(n - 1, |weeks|);
      OrdersUpToFields(products, weeks, qtyDraw, n - 1);
      var prev: seq<PurchaseOrder> := OrdersUpTo(products, weeks, qtyDraw, n - 1);
      var mine: seq<PurchaseOrder> := ProductOrders(products, weeks, qtyDraw, n - 1);
      assert OrdersUpTo(products, weeks, qtyDraw, n) == prev + mine;
      forall k | 0 <= k < |prev| + |mine|
        ensures (prev + mine)[k].poId == k + 1
        ensures (prev + mine)[k].promisedDate == (prev + mine)[k].orderDate + DeliveryDays
        ensures (prev + mine)[k].receivedDate == (prev + mine)[k].promisedDate
        ensures (prev + mine)[k].qtyOrdered == (prev + mine)[k].qtyReceived == qtyDraw(k)
      {
        if k < |prev| {
          assert (prev + mine)[k] == prev[k];
        } else {
          assert (prev + mine)[k] == mine[k - |prev|];
          ProductOrdersAt(products, weeks, qtyDraw, n - 1, k - |prev|);
        }
      }
    }
  }

  /** The record at position i·W + j belongs to the i-th product and the j-th weekly date. */
  lemma {:induction false} OrdersUpToAt(products: seq<ProductRecord>, weeks: seq<int>, qtyDraw: nat -> int, n: int, i: int, j: int)
    requires 0 <= n <= |products|
    requires 0 <= i < n && 0 <= j < |weeks|
    ensures i * |weeks| + j < n * |weeks|
    ensures OrdersUpTo(products, weeks, qtyDraw, n)[i * |weeks| + j] == OrderFor(products, weeks, qtyDraw, i, j)
  {
    ProductStride(n - 1, |weeks|);
    var prev := OrdersUpTo(products, weeks, qtyDraw, n - 1);
    var mine := ProductOrders(products, weeks, qtyDraw, n - 1);
    if i < n - 1 {
      ProductStride(i, |weeks|);
      ProductStride(n - 1 - (i + 1), |weeks|);
      assert (n - 1) * |weeks| == (n - 1 - (i + 1)) * |weeks| + (i + 1) * |weeks|;
      OrdersUpToAt(products, weeks, qtyDraw, n - 1, i, j);
      assert (prev + mine)[i * |weeks| + j] == prev[i * |weeks| + j];
    } else {
      assert (prev + mine)[i * |weeks| + j] == mine[j];
      ProductOrdersAt(products, weeks, qtyDraw, i, j);
    }
  }

  /** The number of orders of one product. */
  function CountOrdersOf(pos: seq<PurchaseOrder>, pid: int): (c: nat)
    ensures c <= |pos|
  {
    if pos == [] then 0
    else (if pos[0].productId == pid then 1 else 0) + CountOrdersOf(pos[1..], pid)
  }

  lemma {:induction false} CountOrdersConcat(a: seq<PurchaseOrder>, b: seq<PurchaseOrder>, pid: int)
    ensures CountOrdersOf(a + b, pid) == CountOrdersOf(a, pid) + CountOrdersOf(b, pid)
  {
    if a == [] {
      assert a + b == b;
    } else {
      assert (a + b)[1..] == a[1..] + b;
      CountOrdersConcat(a[1..], b, pid);
    }
  }

  lemma {:induction false} CountOrdersOfOneProduct(pos: seq<PurchaseOrder>, q: int, pid: int)
    requires forall k | 0 <= k < |pos| :: pos[k].productId == q
    ensures CountOrdersOf(pos, pid) == if q == pid then |pos| else 0
  {
    if pos != [] {
      CountOrdersOfOneProduct(pos[1..], q, pid);
    }
  }

  lemma {:induction false} CountOrdersUpTo(products: seq<ProductRecord>, weeks: seq<int>, qtyDraw: nat -> int, n: int, i: int)
    requires UniqueProductIds(products)
    requires 0 <= n <= |products| && 0 <= i < |products|
    ensures CountOrdersOf(OrdersUpTo(products, weeks, qtyDraw, n), products[i].productId) == if i < n then |weeks| else 0
  {
    if n > 0 {
      ProductStride(n - 1, |weeks|);
      CountOrdersUpTo(products, weeks, qtyDraw, n - 1, i);
      var prev := OrdersUpTo(products, weeks, qtyDraw, n - 1);
      var mine := ProductOrders(products, weeks, qtyDraw, n - 1);
      CountOrdersConcat(prev, mine, products[i].productId);
      forall k | 0 <= k < |mine| ensures mine[k].productId == products[n - 1].productId {
        ProductOrdersAt(products, weeks, qtyDraw, n - 1, k);
      }
      CountOrdersOfOneProduct(mine, products[n - 1].productId, products[i].productId);
      assert products[n - 1].productId == products[i].productId <==> n - 1 == i;
    }
  }

  /**
   * What the purchase-order generator promises: |products| · ⌈|dates|/7⌉
   * records with ids 1, 2, 3, ...; each record's dates and quantities; and,
   * with unique product ids, each product has exactly ⌈|dates|/7⌉ orders.
   */
  lemma PurchaseOrderProperties(products: seq<ProductRecord>, dates: seq<int>, qtyDraw: nat -> int)
    ensures var pos := PurchaseOrders(products, dates, qtyDraw);
      && |pos| == |products| * ((|dates| + 6) / 7)
      && forall k | 0 <= k < |pos| ::
        && pos[k].poId == k + 1
        && pos[k].promisedDate == pos[k].orderDate + 7
        && pos[k].receivedDate == pos[k].orderDate + 7
        && pos[k].qtyReceived == pos[k].qtyOrdered
    ensures UniqueProductIds(products) ==>
      forall i | 0 <= i < |products| ::
        CountOrdersOf(PurchaseOrders(products, dates, qtyDraw), products[i].productId) == (|dates| + 6) / 7
  {
    var weeks := WeeklyDates(dates);
    OrdersUpToFields(products, weeks, qtyDraw, |products|);
    if UniqueProductIds(products) {
      forall i | 0 <= i < |products|
        ensures CountOrdersOf(PurchaseOrders(products, dates, qtyDraw), products[i].productId) == (|dates| + 6) / 7
      {
        CountOrdersUpTo(products, weeks, qtyDraw, |products|, i);
      }
    }
  }

  // ---------------------------------------------------------------------------
  // Inventory snapshots
  // ---------------------------------------------------------------------------

  /** `sales.loc[(dt == d) & (product_id == pid), "units"].sum()`. */
  function DaySales(sales: seq<SaleRecord>, d: int, pid: int): (total: int)
    ensures (forall k | 0 <= k < |sales| :: sales[k].units >= 0) ==> total >= 0
  {
    if sales == [] then 0
    else
      assert forall k | 0 <= k < |sales| - 1 :: sales[1..][k] == sales[k + 1];
      (if sales[0].dt == d && sales[0].productId == pid then sales[0].units else 0) + DaySales(sales[1..], d, pid)
  }

  /** The day-by-day sales of one product over the date range. */
  function DailySales(sales: seq<SaleRecord>, dates: seq<int>, pid: int): (daily: seq<int>)
    ensures |daily| == |dates|
    ensures (forall k | 0 <= k < |sales| :: sales[k].units >= 0) ==> forall j | 0 <= j < |daily| :: daily[j] >= 0
  {
    seq(|dates|, j requires 0 <= j < |dates| => DaySales(sales, dates[j], pid))
  }

  /** The running stock after the given days: `qty = max(0, qty - day_sales)` each day. */
  function StockAfter(start: int, daily: seq<int>): (qty: int)
    ensures daily != [] ==> qty >= 0
  {
    if daily == [] then start
    else
      var before := StockAfter(start, daily[..|daily| - 1]) - daily[|daily| - 1];
      if before > 0 then before else 0
  }

  /** The snapshots of one product, one per date, each holding the stock after that day's sales. */
  function ProductSnapshots(pid: int, dates: seq<int>, start: int, sales: seq<SaleRecord>): (rows: seq<InventoryRecord>)
    ensures |rows| == |dates|
  {
    var daily := DailySales(sales, dates, pid);
    seq(|dates|, j requires 0 <= j < |dates| => InventoryRecord(dates[j], pid, StockAfter(start, daily[..j + 1])))
  }

  /** The snapshots of the first n products, products outer and dates inner. */
  function SnapshotsUpTo(products: seq<ProductRecord>, dates: seq<int>, startDraws: seq<int>, sales: seq<SaleRecord>, n: int): (inv: seq<InventoryRecord>)
    requires 0 <= n <= |products| && n <= |startDraws|
    ensures |inv| == n * |dates|
  {
    if n == 0 then []
    else
      ProductStride(n - 1, |dates|);
      SnapshotsUpTo(products, dates, startDraws, sales, n - 1)
        + ProductSnapshots(products[n - 1].productId, dates, startDraws[n - 1], sales)
  }

  /** The inventory-snapshot table the generator writes. */
  function InventorySnapshots(products: seq<ProductRecord>, dates: seq<int>, startDraws: seq<int>, sales: seq<SaleRecord>): (inv: seq<InventoryRecord>)
    requires |products| <= |startDraws|
    ensures |inv| == |products| * |dates|
  {
    SnapshotsUpTo(products, dates, startDraws, sales, |products|)
  }

  /** The nested loop over products and dates that depletes a running stock. */
  method GenerateInventory(products: seq<ProductRecord>, dates: seq<int>, startDraws: seq<int>, sales: seq<SaleRecord>)
    returns (invRecords: seq<InventoryRecord>)
    requires |products| <= |startDraws|
    ensures invRecords == InventorySnapshots(products, dates, startDraws, sales)
  {
    invRecords := [];
    for i := 0 to |products|
      invariant invRecords == SnapshotsUpTo(products, dates, startDraws, sales, i)
    {
      var pid := products[i].productId;
      var qtyOnHand := startDraws[i];
      ghost var daily := DailySales(sales, dates, pid);
      ghost var mine := ProductSnapshots(pid, dates, startDraws[i], sales);
      for j := 0 to |dates|
        invariant qtyOnHand == StockAfter(startDraws[i], daily[..j])
        invariant invRecords == SnapshotsUpTo(products, dates, startDraws, sales, i) + mine[..j]
      {
        var daySales := DaySales(sales, dates[j], pid);
        assert daily[..j + 1][..j] == daily[..j];
        qtyOnHand := if qtyOnHand - daySales > 0 then qtyOnHand - daySales else 0;
        invRecords := invRecords + [InventoryRecord(dates[j], pid, qtyOnHand)];
        PrefixExtend(mine, j);
      }
      assert mine[..|dates|] == mine;
    }
  }

  /** With non-negative sales the running stock stays between zero and the starting stock. */
  lemma {:induction false} StockBetweenZeroAndStart(start: int, daily: seq<int>)
    requires start >= 0
    requires forall k | 0 <= k < |daily| :: daily[k] >= 0
    ensures 0 <= StockAfter(start, daily) <= start
  {
    if daily != [] {
      var prefix := daily[..|daily| - 1];
      assert forall k | 0 <= k < |prefix| :: prefix[k] == daily[k];
      StockBetweenZeroAndStart(start, prefix);
    }
  }

  /** With non-negative sales one more day never raises the stock. */
  lemma StockNonIncreasing(start: int, daily: seq<int>, j: int)
    requires 0 <= j < |daily| && daily[j] >= 0
    requires start >= 0 || j > 0
    ensures StockAfter(start, daily[..j + 1]) <= StockAfter(start, daily[..j])
  {
    assert daily[..j + 1][..j] == daily[..j];
  }

  /**
   * The snapshots of one product: never negative, never above the starting
   * stock, and non-increasing from one date to the next, as long as the
   * starting stock and the day's sales are non-negative.
   */
  lemma ProductSnapshotsBounded(pid: int, dates: seq<int>, start: int, sales: seq<SaleRecord>)
    requires start >= 0
    requires forall k | 0 <= k < |sales| :: sales[k].units >= 0
    ensures var rows := ProductSnapshots(pid, dates, start, sales);
      && (forall j | 0 <= j < |rows| :: rows[j].dt == dates[j] && rows[j].productId == pid && 0 <= rows[j].qtyOnHand <= start)
      && (forall j | 0 <= j < |rows| - 1 :: rows[j + 1].qtyOnHand <= rows[j].qtyOnHand)
  {
    var daily := DailySales(sales, dates, pid);
    var rows := ProductSnapshots(pid, dates, start, sales);
    forall j | 0 <= j < |rows|
      ensures 0 <= rows[j].qtyOnHand <= start
    {
      StockBetweenZeroAndStart(start, daily[..j + 1]);
    }
    forall j | 0 <= j < |rows| - 1
      ensures rows[j + 1].qtyOnHand <= rows[j].qtyOnHand
    {
      StockNonIncreasing(start, daily, j + 1);
    }
  }

  /** The record at i·|dates| + j is the i-th product on the j-th date: products outer, dates inner. */
  lemma {:induction false} SnapshotsUpToAt(products: seq<ProductRecord>, dates: seq<int>, startDraws: seq<int>, sales: seq<SaleRecord>, n: int, i: int, j: int)
    requires 0 <= n <= |products| && n <= |startDraws|
    requires 0 <= i < n && 0 <= j < |dates|
    ensures |SnapshotsUpTo(products, dates, startDraws, sales, n)| == n * |dates|
    ensures i * |dates| + j < n * |dates|
    ensures SnapshotsUpTo(products, dates, startDraws, sales, n)[i * |dates| + j]
      == ProductSnapshots(products[i].productId, dates, startDraws[i], sales)[j]
  {
    ProductStride(n - 1, |dates|);
    var prev := SnapshotsUpTo(products, dates, startDraws, sales, n - 1);
    var mine := ProductSnapshots(products[n - 1].productId, dates, startDraws[n - 1], sales);
    if i < n - 1 {
      ProductStride(i, |dates|);
      ProductStride(n - 1 - (i + 1), |dates|);
      assert (n - 1) * |dates| == (n - 1 - (i + 1)) * |dates| + (i + 1) * |dates|;
      SnapshotsUpToAt(products, dates, startDraws, sales, n - 1, i, j);
      assert (prev + mine)[i * |dates| + j] == prev[i * |dates| + j];
    } else {
      assert (prev + mine)[i * |dates| + j] == mine[j];
    }
  }

  /**
   * The record at i·|dates| + j is the i-th product on the j-th date, holds a
   * stock between zero and that product's starting stock, and the next
   * date's record of the same product holds no more.
   */
  ghost predicate SnapshotHolds(inv: seq<InventoryRecord>, products: seq<ProductRecord>, dates: seq<int>, startDraws: seq<int>, i: int, j: int)
    requires 0 <= i < |products| <= |startDraws| && 0 <= j < |dates|
  {
    && i * |dates| + j < |inv|
    && inv[i * |dates| + j].dt == dates[j]
    && inv[i * |dates| + j].productId == products[i].productId
    && 0 <= inv[i * |dates| + j].qtyOnHand <= startDraws[i]
    && (j + 1 < |dates| ==> i * |dates| + j + 1 < |inv| && inv[i * |dates| + j + 1].qtyOnHand <= inv[i * |dates| + j].qtyOnHand)
  }

  /** The snapshot of the i-th product on the j-th date and on the day after. */
  lemma InventoryAt(products: seq<ProductRecord>, dates: seq<int>, startDraws: seq<int>, sales: seq<SaleRecord>, i: int, j: int)
    requires |products| <= |startDraws|
    requires 0 <= i < |products| && 0 <= j < |dates| && startDraws[i] >= 0
    requires forall k | 0 <= k < |sales| :: sales[k].units >= 0
    ensures SnapshotHolds(InventorySnapshots(products, dates, startDraws, sales), products, dates, startDraws, i, j)
  {
    var rows := ProductSnapshots(products[i].productId, dates, startDraws[i], sales);
    ProductSnapshotsBounded(products[i].productId, dates, startDraws[i], sales);
    SnapshotsUpToAt(products, dates, startDraws, sales, |products|, i, j);
    assert 0 <= rows[j].qtyOnHand <= startDraws[i];
    if j + 1 < |dates| {
      SnapshotsUpToAt(products, dates, startDraws, sales, |products|, i, j + 1);
      assert rows[j + 1].qtyOnHand <= rows[j].qtyOnHand;
    }
  }

  /**
   * What the inventory generator promises: one record per product and date,
   * products outer and dates inner, each holding a stock between zero and
   * that product's starting stock that never rises from one date to the next
   * (for non-negative starting stocks and sales).
   */
  lemma InventoryProperties(products: seq<ProductRecord>, dates: seq<int>, startDraws: seq<int>, sales: seq<SaleRecord>)
    requires |products| <= |startDraws|
    requires forall i | 0 <= i < |products| :: startDraws[i] >= 0
    requires forall k | 0 <= k < |sales| :: sales[k].units >= 0
    ensures |InventorySnapshots(products, dates, startDraws, sales)| == |products| * |dates|
    ensures forall i, j | 0 <= i < |products| && 0 <= j < |dates| ::
      SnapshotHolds(InventorySnapshots(products, dates, startDraws, sales), products, dates, startDraws, i, j)
  {
    forall i, j | 0 <= i < |products| && 0 <= j < |dates|
      ensures SnapshotHolds(InventorySnapshots(products, dates, startDraws, sales), products, dates, startDraws, i, j)
    {
      InventoryAt(products, dates, startDraws, sales, i, j);
    }
  }
}
