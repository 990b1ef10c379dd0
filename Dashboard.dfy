/**
 * The interactive dashboard (app/streamlit_app.py): it filters the joined
 * product table by the selected categories, recomputes safety stock, reorder
 * point and the below-reorder-point flag with the batch formulas, and shows
 * three counts and the table of products below their reorder point.
 *
 * Its suggested order quantity is NOT the batch engine's: it is the clipped,
 * rounded raw quantity for every row, with no below-reorder-point gate and no
 * supplier minimum.
 */
module Dashboard {
  import opened Rounding
  import ReorderPlan

  /** Bounds of the service-level slider, in percent. */
  const MinServicePct: int := 50
  const MaxServicePct: int := 99

  /** A row of the dashboard's query: demand, product, supplier and latest stock, inner-joined. */
  datatype DashRow = DashRow(
    productId: int, productName: string, category: string, supplierName: string,
    qtyOnHand: int, avgDailyUnits: real, stdDailyUnits: real, leadTimeDays: int)

  /** A row of the dashboard table: the query row and the computed columns. */
  datatype DashPlanRow = DashPlanRow(
    row: DashRow, safetyStock: int, reorderPoint: int, belowRop: bool, suggestedOrderQty: int)

  /** The service level the slider yields: the percentage divided by 100. */
  function ServiceLevel(pct: int): (level: real)
    requires MinServicePct <= pct <= MaxServicePct
    ensures 0.5 <= level <= 0.99
  {
    pct as real / 100.0
  }

  /** `df[df["category"].isin(selected)]`: the rows of a selected category, in their order. */
  function FilterCategory(rows: seq<DashRow>, selected: set<string>): (kept: seq<DashRow>)
    ensures |kept| <= |rows|
    ensures forall r | r in kept :: r in rows && r.category in selected
    ensures forall k | 0 <= k < |kept| :: kept[k].category in selected
    ensures forall k | 0 <= k < |rows| && rows[k].category in selected :: rows[k] in kept
  {
    if rows == [] then []
    else (if rows[0].category in selected then [rows[0]] else []) + FilterCategory(rows[1..], selected)
  }

  /** Filtering a concatenation filters each part and keeps them in order. */
  lemma {:induction false} FilterCategoryConcat(a: seq<DashRow>, b: seq<DashRow>, selected: set<string>)
    ensures FilterCategory(a + b, selected) == FilterCategory(a, selected) + FilterCategory(b, selected)
  {
    if a == [] {
      assert a + b == b;
    } else {
      assert (a + b)[0] == a[0];
      assert (a + b)[1..] == a[1..] + b;
      FilterCategoryConcat(a[1..], b, selected);
    }
  }

  /** With every category selected (the widget's default) the table is unchanged. */
  lemma {:induction false} FilterCategoryAllSelected(rows: seq<DashRow>, selected: set<string>)
    requires forall k | 0 <= k < |rows| :: rows[k].category in selected
    ensures FilterCategory(rows, selected) == rows
  {
    if rows != [] {
      assert rows[0].category in selected;
      FilterCategoryAllSelected(rows[1..], selected);
      assert [rows[0]] + rows[1..] == rows;
    }
  }

  /** The computed columns of one row; the suggested quantity is the ungated raw quantity. */
  function DashDecide(r: DashRow, z: real, sqrtLead: real, reviewPeriod: int): (d: DashPlanRow)
    ensures d.row == r
    ensures d.belowRop <==> r.qtyOnHand < d.reorderPoint
    ensures d.suggestedOrderQty >= 0
  {
    var ss := ReorderPlan.SafetyStock(z, r.stdDailyUnits, sqrtLead);
    var rop := ReorderPlan.ReorderPoint(r.avgDailyUnits, r.leadTimeDays, ss);
    var below := ReorderPlan.BelowReorderPoint(r.qtyOnHand, rop);
    DashPlanRow(r, ss, rop, below, ReorderPlan.RawOrderQty(rop, r.avgDailyUnits, reviewPeriod, r.qtyOnHand))
  }

  /** The dashboard table: the filtered rows with their computed columns. */
  function DashboardTable(rows: seq<DashRow>, selected: set<string>, z: real, sqrt: int -> real, reviewPeriod: int): (t: seq<DashPlanRow>)
    ensures |t| == |FilterCategory(rows, selected)|
    ensures forall k | 0 <= k < |t| :: t[k].row == FilterCategory(rows, selected)[k] && t[k].row.category in selected
    ensures forall k | 0 <= k < |t| :: t[k] == DashDecide(t[k].row, z, sqrt(t[k].row.leadTimeDays), reviewPeriod)
  {
    var kept := FilterCategory(rows, selected);
    var t := seq(|kept|, k requires 0 <= k < |kept| => DashDecide(kept[k], z, sqrt(kept[k].leadTimeDays), reviewPeriod));
    assert forall k | 0 <= k < |t| :: t[k] == DashDecide(kept[k], z, sqrt(kept[k].leadTimeDays), reviewPeriod);
    t
  }

  /** The batch engine's input row carrying the same product, stock and demand figures. */
  function AsPolicyInput(r: DashRow, supplierId: int, minOrderQty: int): ReorderPlan.PolicyInput
  {
    ReorderPlan.PolicyInput(
      r.productId, supplierId, r.supplierName, r.qtyOnHand,
      r.avgDailyUnits, r.stdDailyUnits, r.leadTimeDays, minOrderQty)
  }

  /**
   * For identical inputs the dashboard and the batch engine agree on safety
   * stock, reorder point and flag; the dashboard's suggestion is the batch
   * raw quantity, and the batch suggestion is the dashboard's one gated by
   * the flag and floored at the supplier minimum.
   */
  lemma DashboardAgreesWithBatch(r: DashRow, supplierId: int, minOrderQty: int, z: real, sqrtLead: real, reviewPeriod: int)
    ensures var dash := DashDecide(r, z, sqrtLead, reviewPeriod);
      var batch := ReorderPlan.Decide(AsPolicyInput(r, supplierId, minOrderQty), z, sqrtLead, reviewPeriod);
      && dash.safetyStock == batch.safetyStock
      && dash.reorderPoint == batch.reorderPoint
      && dash.belowRop == batch.belowRop
      && dash.suggestedOrderQty == batch.rawOrderQty
      && batch.suggestedOrderQty ==
           if dash.belowRop then (if dash.suggestedOrderQty >= minOrderQty then dash.suggestedOrderQty else minOrderQty)
           else 0
  {
  }

  /**
   * The divergence: at or above the reorder point, when stock is at least one
   * unit short of reorder point plus review-period demand, the dashboard
   * suggests ordering while the batch engine suggests nothing.
   */
  lemma DashboardSuggestsWhereBatchDoesNot(r: DashRow, supplierId: int, minOrderQty: int, z: real, sqrtLead: real, reviewPeriod: int)
    requires var dash := DashDecide(r, z, sqrtLead, reviewPeriod);
      && !dash.belowRop
      && r.qtyOnHand as real + 1.0 <= dash.reorderPoint as real + r.avgDailyUnits * reviewPeriod as real
    ensures DashDecide(r, z, sqrtLead, reviewPeriod).suggestedOrderQty >= 1
    ensures ReorderPlan.Decide(AsPolicyInput(r, supplierId, minOrderQty), z, sqrtLead, reviewPeriod).suggestedOrderQty == 0
  {
    var dash := DashDecide(r, z, sqrtLead, reviewPeriod);
    var x := dash.reorderPoint as real + r.avgDailyUnits * reviewPeriod as real - r.qtyOnHand as real;
    RoundAtLeast(ClipLower0(x), 1);
  }

  /** A concrete instance: stock 50 against reorder point 44 with 35 units of review-period demand. */
  lemma DivergenceExample(z: real, sqrtLead: real)
    requires 1.64 <= z <= 1.65 && ReorderPlan.IsSqrtOf(sqrtLead, 7)
    ensures var r := DashRow(1, "p", "c", "s", 50, 5.0, 2.0, 7);
      && DashDecide(r, z, sqrtLead, 7).reorderPoint == 44
      && !DashDecide(r, z, sqrtLead, 7).belowRop
      && DashDecide(r, z, sqrtLead, 7).suggestedOrderQty == 29
      && ReorderPlan.Decide(AsPolicyInput(r, 1, 10), z, sqrtLead, 7).suggestedOrderQty == 0
  {
    ReorderPlan.SafetyStockScenario(z, sqrtLead);
    RoundOfInt(29);
  }

  // ---------------------------------------------------------------------------
  // KPI cards and the below-reorder-point table
  // ---------------------------------------------------------------------------

  /** The "Products" card: `len(df)`. */
  function ProductsKpi(t: seq<DashPlanRow>): (n: nat)
    ensures n >= NeedReorderKpi(t)
    ensures n >= SuppliersKpi(t)
  {
    SuppliersAtMostRows(t);
    |t|
  }

  /** The "Suppliers" card: the number of distinct supplier names. */
  function SuppliersKpi(t: seq<DashPlanRow>): (n: nat)
    ensures t == [] <==> n == 0
  {
    var names := set r | r in t :: r.row.supplierName;
    assert t != [] ==> t[0].row.supplierName in names;
    |names|
  }

  /** The "Need Reorder" card: `df["below_rop"].sum()`. */
  function NeedReorderKpi(t: seq<DashPlanRow>): (n: nat)
    ensures n <= |t|
  {
    if t == [] then 0
    else (if t[0].belowRop then 1 else 0) + NeedReorderKpi(t[1..])
  }

  /** `df[df["below_rop"] == True]`: the rows below their reorder point, in order. */
  function BelowTable(t: seq<DashPlanRow>): (below: seq<DashPlanRow>)
    ensures forall r | r in below :: r in t && r.belowRop
    ensures forall k | 0 <= k < |t| && t[k].belowRop :: t[k] in below
  {
    if t == [] then []
    else (if t[0].belowRop then [t[0]] else []) + BelowTable(t[1..])
  }

  /** Selecting the flagged rows of a concatenation selects each part's, so the table order is kept. */
  lemma {:induction false} BelowTableConcat(a: seq<DashPlanRow>, b: seq<DashPlanRow>)
    ensures BelowTable(a + b) == BelowTable(a) + BelowTable(b)
  {
    if a == [] {
      assert a + b == b;
    } else {
      assert (a + b)[0] == a[0];
      assert (a + b)[1..] == a[1..] + b;
      BelowTableConcat(a[1..], b);
    }
  }

  /** The "Need Reorder" count is the number of rows in the below-reorder-point table. */
  lemma {:induction false} NeedReorderCountsBelowTable(t: seq<DashPlanRow>)
    ensures NeedReorderKpi(t) == |BelowTable(t)|
  {
    if t != [] {
      NeedReorderCountsBelowTable(t[1..]);
    }
  }

  /** There are never more distinct suppliers than rows. */
  lemma {:induction false} SuppliersAtMostRows(t: seq<DashPlanRow>)
    ensures SuppliersKpi(t) <= |t|
  {
    if t != [] {
      SuppliersAtMostRows(t[1..]);
      var names := set r | r in t :: r.row.supplierName;
      var rest := set r | r in t[1..] :: r.row.supplierName;
      assert names <= rest + {t[0].row.supplierName} by {
        forall n | n in names ensures n in rest + {t[0].row.supplierName} {
          var r :| r in t && r.row.supplierName == n;
          var k :| 0 <= k < |t| && t[k] == r;
          if k > 0 {
            assert t[1..][k - 1] == r;
          }
        }
      }
      assert |rest + {t[0].row.supplierName}| <= |rest| + 1;
      SubsetCardinality(names, rest + {t[0].row.supplierName});
      assert SuppliersKpi(t[1..]) == |rest|;
    }
  }

  lemma {:induction false} SubsetCardinality(a: set<string>, b: set<string>)
    requires a <= b
    ensures |a| <= |b|
  {
    if a != {} {
      var x :| x in a;
      SubsetCardinality(a - {x}, b - {x});
    }
  }

  /**
   * The three counts and the below table of the dashboard for one setting of
   * the sliders and the category filter.
   */
  lemma DashboardCounts(rows: seq<DashRow>, selected: set<string>, z: real, sqrt: int -> real, reviewPeriod: int)
    ensures var t := DashboardTable(rows, selected, z, sqrt, reviewPeriod);
      && ProductsKpi(t) == |FilterCategory(rows, selected)|
      && NeedReorderKpi(t) == |BelowTable(t)|
      && SuppliersKpi(t) <= ProductsKpi(t)
      && forall r | r in BelowTable(t) :: r.belowRop && r.row.category in selected
  {
    var t := DashboardTable(rows, selected, z, sqrt, reviewPeriod);
    NeedReorderCountsBelowTable(t);
  }
}
