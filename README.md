# Bar inventory reorder policy — a Dafny model

This project models the reorder-policy core of the bar-inventory analytics
repository and proves properties of it. The core has three parts:

- **The batch reorder engine** (`analytics/reorder_plan.py`). It left-joins
  the demand statistics, the latest inventory snapshot and the supplier
  terms on the product id, with demand as the anchor. It defaults missing
  demand statistics to mean 0.5 and standard deviation 0.7. Then, per
  product, it computes:
  - the safety stock `round(z·σ·√L)`;
  - the reorder point `round(μ·L + safety_stock)`;
  - the strict below-reorder-point flag;
  - the raw order quantity `round(clip₀(rop + μ·R − qty))`;
  - the suggested order quantity: the raw quantity floored at the
    supplier's minimum order quantity, below the reorder point, and 0
    otherwise.
- **The dashboard's copy of the policy** (`app/streamlit_app.py`). It
  filters the rows by the selected categories and recomputes safety stock,
  reorder point and the flag with the same formulas. Its suggested
  quantity is the ungated raw quantity: there is no flag gate and no
  supplier minimum. The dashboard also shows three counts and the table of
  products below their reorder point.
- **The synthetic-data generator** (`etl/generate_data.py`):
  - the fixed supplier table;
  - the weekly purchase-order loop with its running `po_id` counter;
  - the daily inventory-depletion loop with its running stock
    `qty = max(0, qty − sales)`.

Modules:

| file | module | form |
|---|---|---|
| `Wrappers.dfy` | `Wrappers` | `Option`, the nullable cell a left join leaves behind |
| `Rounding.dfy` | `Rounding` | pandas `round()` (numpy round half to even) and `clip(lower=0)` on exact reals |
| `ReorderPlan.dfy` | `ReorderPlan` | the batch engine as per-row functions and a map over the joined rows |
| `Dashboard.dfy` | `Dashboard` | the dashboard's filter, columns, counts and selection as functions |
| `GenerateData.dfy` | `GenerateData` | the generator's nested loops as methods, proved equal to recursive specification functions |

Modelling choices:

- **Parameters.**
  - The safety factor `z` is a real parameter. The code obtains it as `norm.ppf(service level)`.
  - The square root of the lead time is also a parameter. Lemmas that need it ask for a value `s` with `s ≥ 0` and `s·s = L` (`IsSqrtOf`).
- **Quantities and rounding.**
  - Demand statistics are `real`. Quantities, lead times, review periods and minimum order quantities are `int`.
  - Rounding is numpy's round half to even, which pandas `round()` uses. The source does not document a tie-break; the model follows numpy's.
  - The code clips at zero before it rounds. `ClipThenRoundIsRoundThenClamp` proves that this equals rounding first and clamping the integer at zero.
- **Generator inputs.**
  - Dates are day numbers, so `d + timedelta(days=7)` is `d + 7`.
  - Every random draw of the generator is an input. The order quantities are a stream `nat -> int`, indexed by the running counter. The starting stocks are a sequence with one entry per product. The sales table is an input.

## Model

| member | source | states |
|---|---|---|
| Rounding.RoundHalfEven | analytics/reorder_plan.py:61-62 | the result is an integer within one half of the value and, on a tie, the even one |
| Rounding.RoundHalfEvenUnique | analytics/reorder_plan.py:61-62 | exactly one integer meets that description, so the rounding is determined by it |
| Rounding.RoundOfInt | analytics/reorder_plan.py:62 | an integer-valued real rounds to itself |
| Rounding.RoundMonotone | analytics/reorder_plan.py:62 | rounding preserves the order of two values |
| Rounding.RoundAtLeast | analytics/reorder_plan.py:62 | rounding a value that is at least an integer n gives at least n |
| Rounding.ClipLower0 | analytics/reorder_plan.py:68 | a negative value becomes 0 and a non-negative one is kept; the result is non-negative and at least the input |
| Rounding.ClipThenRoundIsRoundThenClamp | analytics/reorder_plan.py:68 | clip-then-round equals round-then-clamp-at-zero for every value |
| ReorderPlan.Matching | analytics/reorder_plan.py:51-52 | the right-hand rows with the key, all of them; empty exactly when no right row has the key |
| ReorderPlan.JoinOne | analytics/reorder_plan.py:51-52 | a left row always yields at least one join row, led by that row; with at most one match exactly one row, unmatched exactly when there is no match |
| ReorderPlan.JoinOnePerMatch | analytics/reorder_plan.py:51-52 | with matches, one join row per match pairing the left row with it, in match order |
| ReorderPlan.LeftJoin | analytics/reorder_plan.py:51-52 | at least as many rows as the left feed; every row's left side comes from the left feed; every matched right row comes from the right feed and has the left row's key |
| ReorderPlan.LeftJoinKeepsLeftRow | analytics/reorder_plan.py:51-52 | the k-th left row is paired in some join row, whatever the right feed holds |
| ReorderPlan.LeftJoinKeepsLeftRows | analytics/reorder_plan.py:51-52 | no left row is dropped by the join |
| ReorderPlan.MatchingUnique | analytics/reorder_plan.py:51-52 | with unique right keys at most one row matches |
| ReorderPlan.JoinOneUnique | analytics/reorder_plan.py:51-52 | with unique right keys a left row yields exactly one join row, unmatched exactly when its key is absent on the right |
| ReorderPlan.LeftJoinUniqueLength | analytics/reorder_plan.py:51-52 | with unique right keys the join has exactly one row per left row |
| ReorderPlan.LeftJoinUniqueAt | analytics/reorder_plan.py:51-52 | with unique right keys the i-th join row carries the i-th left row and is unmatched iff its key is absent on the right |
| ReorderPlan.LeftJoinUnique | analytics/reorder_plan.py:51-52 | the same for all rows: left rows kept one for one, in order |
| ReorderPlan.Merge | analytics/reorder_plan.py:51-52 | every present inventory or supplier cell comes from its feed and belongs to the row's product |
| ReorderPlan.MergeOneRowPerDemand | analytics/reorder_plan.py:51-52 | with unique ids in the inventory and supplier feeds: one merged row per demand row, in order, each side absent iff its feed lacks the product |
| ReorderPlan.FillNa | analytics/reorder_plan.py:55-56 | a present value is kept and a missing one becomes the default |
| ReorderPlan.Fill | analytics/reorder_plan.py:51-56 | the policy row takes its stock from the inventory side and its supplier, lead time and minimum from the supplier side; missing statistics become 0.5 and 0.7 and present ones are kept |
| ReorderPlan.SafetyStock | analytics/reorder_plan.py:61 | the safety stock is z·σ·√L rounded half to even; non-negativity is SafetyStockNonNegative |
| ReorderPlan.ReorderPoint | analytics/reorder_plan.py:62 | the reorder point is μ·L + safety stock rounded half to even; its lower bound is ReorderPointAtLeastSafetyStock |
| ReorderPlan.BelowReorderPoint | analytics/reorder_plan.py:67 | a flagged row is at least one unit short of the reorder point; an unflagged one has stock at or above it |
| ReorderPlan.RawOrderQty | analytics/reorder_plan.py:68 | the raw order quantity is never negative |
| ReorderPlan.SuggestedOrderQty | analytics/reorder_plan.py:69-73 | 0 when not flagged; when flagged, the larger of the raw quantity and the supplier minimum |
| ReorderPlan.Decide | analytics/reorder_plan.py:61-73 | the decision keeps its input, flags iff stock < reorder point, has a non-negative raw quantity and suggests only when flagged; further properties in SuggestionIsGated and DecisionInvariants |
| ReorderPlan.Inputs | analytics/reorder_plan.py:51-56 | one policy row per merged row, for the same product; the counts per demand row are PlanOneRowPerDemand |
| ReorderPlan.Plan | analytics/reorder_plan.py:61-73 | one decision per input row, carrying that row; the row invariants are PlanInvariants |
| ReorderPlan.SafetyStockNonNegative | analytics/reorder_plan.py:61 | safety stock is non-negative for non-negative z, σ and √L |
| ReorderPlan.ReorderPointAtLeastSafetyStock | analytics/reorder_plan.py:62 | the reorder point is at least the safety stock when μ·L ≥ 0 |
| ReorderPlan.SuggestionIsGated | analytics/reorder_plan.py:67-73 | flag iff stock < reorder point (strict); 0 when not flagged; when flagged, at least the supplier minimum and the raw quantity; never negative; non-zero only when flagged |
| ReorderPlan.SuggestionAtLeastOneWhenBelow | analytics/reorder_plan.py:68-73 | for μ ≥ 0 and R ≥ 0, a flagged row has raw and suggested quantity at least 1 |
| ReorderPlan.DecisionInvariants | analytics/reorder_plan.py:61-73 | under the domain's signs: 0 ≤ safety stock ≤ reorder point, flagged rows order at least 1 unit, unflagged rows order nothing |
| ReorderPlan.PlanOneRowPerDemand | analytics/reorder_plan.py:51-56 | with unique ids: one plan row per demand row, in order, missing statistics replaced by 0.5 and 0.7 and present ones kept |
| ReorderPlan.PlanInvariants | analytics/reorder_plan.py:61-73 | every plan row keeps its input and satisfies the row invariants, the strict flag and the supplier-minimum floor |
| ReorderPlan.SafetyStockScenario | analytics/reorder_plan.py:61-62 | μ = 5, σ = 2, L = 7 and z in [1.64, 1.65] give safety stock 9 and reorder point 44 |
| ReorderPlan.SuggestionScenarios | analytics/reorder_plan.py:67-73 | reorder point 44, μ = 5, R = 7: stock 30 suggests 49 with minimum 20 and 60 with minimum 60; stock 50 suggests 0 |
| Dashboard.ServiceLevel | app/streamlit_app.py:39 | the slider's service level lies in [0.50, 0.99] |
| Dashboard.FilterCategory | app/streamlit_app.py:50 | the kept rows are exactly the rows of a selected category |
| Dashboard.FilterCategoryConcat | app/streamlit_app.py:50 | filtering distributes over concatenation, so the original order is kept |
| Dashboard.FilterCategoryAllSelected | app/streamlit_app.py:41-50 | with every category selected, the widget's default, the table is unchanged |
| Dashboard.DashDecide | app/streamlit_app.py:52-59 | the computed row carries its input, flags iff stock < reorder point and suggests a non-negative quantity; agreement with the batch engine is DashboardAgreesWithBatch |
| Dashboard.DashboardTable | app/streamlit_app.py:50-59 | one computed row per filtered row, in order, each of a selected category and each computed by DashDecide |
| Dashboard.DashboardAgreesWithBatch | app/streamlit_app.py:52-59 | same safety stock, reorder point and flag as the batch engine; the dashboard's suggestion is the batch raw quantity, and the batch suggestion is the dashboard's one gated and floored |
| Dashboard.DashboardSuggestsWhereBatchDoesNot | app/streamlit_app.py:54-59 | at or above the reorder point, with a shortfall against rop + μ·R of at least one unit, the dashboard suggests at least 1 while the batch engine suggests 0 |
| Dashboard.DivergenceExample | app/streamlit_app.py:52-59 | stock 50 against reorder point 44: the dashboard suggests 29, the batch engine 0 |
| Dashboard.NeedReorderKpi | app/streamlit_app.py:75 | the "Need Reorder" count never exceeds the number of rows |
| Dashboard.BelowTable | app/streamlit_app.py:90 | every member of the below table is a flagged row of the table, and every flagged row is a member; order and copies are pinned by BelowTableConcat |
| Dashboard.BelowTableConcat | app/streamlit_app.py:90 | selecting the flagged rows distributes over concatenation, so the below table keeps exactly the flagged rows, in table order |
| Dashboard.NeedReorderCountsBelowTable | app/streamlit_app.py:75 | the "Need Reorder" count is the size of the below table |
| Dashboard.ProductsKpi | app/streamlit_app.py:73 | the "Products" count is at least the "Need Reorder" and the "Suppliers" counts |
| Dashboard.SuppliersKpi | app/streamlit_app.py:74 | the "Suppliers" count is 0 exactly when the table is empty |
| Dashboard.SuppliersAtMostRows | app/streamlit_app.py:73-74 | the number of distinct supplier names never exceeds the number of rows |
| Dashboard.DashboardCounts | app/streamlit_app.py:73-90 | "Products" is the number of filtered rows; "Need Reorder" is the size of the below table; suppliers ≤ products; every below row is flagged and selected |
| GenerateData.Suppliers | etl/generate_data.py:19-24 | five suppliers with ids 1..5, minimum order quantities 10, 20, 30, 40, 50 and the drawn lead times |
| GenerateData.SupplierName | etl/generate_data.py:21 | the name is "Supplier " followed by the id's one digit |
| GenerateData.WeeklyDates | etl/generate_data.py:61 | every seventh date: ⌈n/7⌉ of them, the k-th being date 7k |
| GenerateData.SupplierOf | etl/generate_data.py:63 | the supplier of the first product row with that id |
| GenerateData.SupplierOfOwnRow | etl/generate_data.py:63 | with unique product ids the lookup returns the row's own supplier |
| GenerateData.OrderFor | etl/generate_data.py:61-71 | the order carries the product, a supplier of a row with that product id, the weekly date, promised = received = order date + 7, and received = ordered |
| GenerateData.ProductOrders | etl/generate_data.py:61-72 | one order per weekly date for one product |
| GenerateData.OrdersUpTo | etl/generate_data.py:60-72 | the first n products yield n·W orders |
| GenerateData.PurchaseOrders | etl/generate_data.py:58-72 | the order table has \|products\|·⌈\|dates\|/7⌉ records; the field properties are PurchaseOrderProperties |
| GenerateData.GeneratePurchaseOrders | etl/generate_data.py:58-72 | the nested loop with its running counter produces the specified order table |
| GenerateData.OrdersUpToFields | etl/generate_data.py:60-72 | the k-th order has id k+1, promised = received = order date + 7, and received = ordered = the k-th quantity draw |
| GenerateData.OrdersUpToAt | etl/generate_data.py:60-72 | the order at position i·W + j is the i-th product's order for the j-th weekly date |
| GenerateData.CountOrdersUpTo | etl/generate_data.py:60-62 | with unique ids each of the first n products has W orders and later ones none |
| GenerateData.PurchaseOrderProperties | etl/generate_data.py:58-72 | \|products\|·⌈\|dates\|/7⌉ orders, ids consecutive from 1, dates +7, received = ordered, and ⌈\|dates\|/7⌉ orders per product when ids are unique |
| GenerateData.DaySales | etl/generate_data.py:89 | a day's sales total is non-negative when every sale is |
| GenerateData.DailySales | etl/generate_data.py:86-89 | one total per date, each non-negative when every sale is |
| GenerateData.StockAfter | etl/generate_data.py:90 | after at least one day the running stock is non-negative |
| GenerateData.ProductSnapshots | etl/generate_data.py:86-91 | one snapshot per date for a product |
| GenerateData.GenerateInventory | etl/generate_data.py:84-91 | the nested loop with its running stock produces the specified snapshot table |
| GenerateData.StockBetweenZeroAndStart | etl/generate_data.py:90 | with non-negative sales the stock stays between zero and the starting stock |
| GenerateData.StockNonIncreasing | etl/generate_data.py:90 | one more day never raises the stock |
| GenerateData.ProductSnapshotsBounded | etl/generate_data.py:86-91 | a product's snapshots carry its dates and id, lie in [0, start] and never rise from one date to the next |
| GenerateData.SnapshotsUpTo | etl/generate_data.py:84-91 | the first n products yield n·\|dates\| snapshots |
| GenerateData.InventorySnapshots | etl/generate_data.py:84-91 | the snapshot table has \|products\|·\|dates\| records; the per-record properties are InventoryProperties |
| GenerateData.SnapshotsUpToAt | etl/generate_data.py:84-91 | the snapshot at i·\|dates\| + j is the i-th product on the j-th date (products outer, dates inner) |
| GenerateData.InventoryAt | etl/generate_data.py:84-91 | the snapshot of product i on date j has that date and id, lies in [0, start], and the next date's is no larger |
| GenerateData.InventoryProperties | etl/generate_data.py:84-91 | \|products\|·\|dates\| snapshots, products outer and dates inner, each in [0, start] and non-increasing over the dates |

## Left out

- Database and file I/O are not modelled: the connections, `read_sql`, `to_csv` and the SQL queries. The latest-snapshot `MAX(dt)` selection belongs to a query. The joined rows are inputs.
- `norm.ppf` is a floating-point routine, so `z` is a parameter. The model does not prove that `z` grows with the service level. Nor does it prove that `z ≥ 0` for service levels of at least 0.5.
- `np.sqrt` and `** 0.5` are not modelled. The square root of the lead time is a parameter.
- Floating-point effects are not modelled. The values are exact reals.
- ReorderPlan.Inputs: requires every merged row to have both its inventory and its supplier side. With a side missing, the code computes with NaN: a NaN comparison is false, and a NaN minimum order quantity cast to `int` is unspecified. That row's behaviour is not modelled.
- ReorderPlan.FillNa: models the intended effect of `fillna(..., inplace=True)` on a selected column. Under pandas copy-on-write such a chained in-place call leaves the frame unchanged. That version-dependent behaviour is not modelled.
- The output's column projection (`df_out`) is not modelled. `Decision` keeps the raw order quantity alongside the projected columns. The CSV writing and printing are left out.
- Some validations are not modelled, because the code performs none of them: rejecting a service level outside (0, 1), rejecting a lead time of 0, and excluding rows with incomplete supplier data.
- The dashboard's inner-join query, `@st.cache_data`, the widgets, the markdown, the metric rendering, the column selection of the displayed tables and the bar chart are UI only. The dashboard rows are an input.
- The review-period slider bounds (1 to 30 days) are not modelled. Nothing in the dashboard depends on them; the lemmas take any review period.
- The generator's product table (SKUs, names, categories, costs, prices and the random supplier choice) is an input.
- The sales loop (Poisson units and revenue) is not modelled. The sales table is an input.
- The supplier's `on_time_rate` is left out. It is a float draw that nothing in the core reads.
- Every random draw is an input: lead times, order quantities and starting stocks. The draws' ranges are not assumed, except that the inventory bounds require non-negative starting stocks and sales.
- GenerateData.SupplierName: models `f"Supplier {i}"` for one-digit ids only. Those are the only ids the table has.
