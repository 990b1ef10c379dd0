/**
 * The batch reorder engine (analytics/reorder_plan.py): left-join the demand,
 * inventory and supplier feeds on the product id with demand as the anchor,
 * default missing demand statistics, then compute per product the safety
 * stock, the reorder point, the below-reorder-point flag, the raw order
 * quantity and the suggested order quantity.
 *
 * The safety factor z (the inverse normal CDF at the service level) and the
 * square root of the lead time are parameters of the model.
 */
module ReorderPlan {
  import opened Wrappers
  import opened Rounding

  /** Mean daily demand assumed for a product without sales history. */
  const DefaultAvgDailyUnits: real := 0.5
  /** Standard deviation of daily demand assumed for a product without sales history. */
  const DefaultStdDailyUnits: real := 0.7

  /** A row of the demand view; either statistic may be missing (NULL). */
  datatype DemandStat = DemandStat(productId: int, avgDailyUnits: Option<real>, stdDailyUnits: Option<real>)

  /** A row of the latest inventory snapshot. */
  datatype InventoryLevel = InventoryLevel(productId: int, qtyOnHand: int)

  /** A row of the product-to-supplier query. */
  datatype SupplierTerms = SupplierTerms(
    productId: int, supplierId: int, supplierName: string, leadTimeDays: int, minOrderQty: int)

  /** A row of the joined table before defaulting; an absent right-hand row is None. */
  datatype MergedRow = MergedRow(demand: DemandStat, inventory: Option<InventoryLevel>, supplier: Option<SupplierTerms>)

  /** A complete joined row after defaulting: everything the policy reads. */
  datatype PolicyInput = PolicyInput(
    productId: int, supplierId: int, supplierName: string, qtyOnHand: int,
    avgDailyUnits: real, stdDailyUnits: real, leadTimeDays: int, minOrderQty: int)

  /** A row of the reorder plan: the input row and the derived columns. */
  datatype Decision = Decision(
    input: PolicyInput, safetyStock: int, reorderPoint: int, belowRop: bool,
    rawOrderQty: int, suggestedOrderQty: int)

  // ---------------------------------------------------------------------------
  // Left join on product_id
  // ---------------------------------------------------------------------------

  /** Some row of `rows` has key `id`. */
  ghost predicate HasKey<R>(rows: seq<R>, key: R -> int, id: int)
  {
    exists k | 0 <= k < |rows| :: key(rows[k]) == id
  }

  /** The rows of `right` whose key is `id`. */
  function Matching<R>(right: seq<R>, key: R -> int, id: int): (m: seq<R>)
    ensures |m| <= |right|
    ensures forall r | r in m :: r in right && key(r) == id
    ensures forall k | 0 <= k < |right| && key(right[k]) == id :: right[k] in m
    ensures m == [] <==> !HasKey(right, key, id)
  {
    if right == [] then []
    else (if key(right[0]) == id then [right[0]] else []) + Matching(right[1..], key, id)
  }

  /** The join rows produced by one left row: one per match, or one with no match. */
  function JoinOne<L, R>(l: L, matches: seq<R>): (rows: seq<(L, Option<R>)>)
    ensures rows != [] && rows[0].0 == l
    ensures |matches| <= 1 ==> |rows| == 1 && rows[0].0 == l && (rows[0].1.None? <==> matches == [])
  {
    if matches == [] then [(l, None)]
    else seq(|matches|, i requires 0 <= i < |matches| => (l, Some(matches[i])))
  }

  /** With matches, a left row yields one join row per match, pairing the row with it, in match order. */
  lemma JoinOnePerMatch<L, R>(l: L, matches: seq<R>)
    requires matches != []
    ensures |JoinOne(l, matches)| == |matches|
    ensures forall i | 0 <= i < |matches| :: JoinOne(l, matches)[i] == (l, Some(matches[i]))
  {
  }

  /** pandas `merge(how="left")` on an integer key: the join rows of each left row, in left order. */
  function LeftJoin<L, R>(left: seq<L>, lkey: L -> int, right: seq<R>, rkey: R -> int): (rows: seq<(L, Option<R>)>)
    ensures |rows| >= |left|
    ensures forall p | p in rows :: p.0 in left
    ensures forall p | p in rows :: p.1.Some? ==> p.1.value in right && rkey(p.1.value) == lkey(p.0)
  {
    if left == [] then []
    else JoinOne(left[0], Matching(right, rkey, lkey(left[0]))) + LeftJoin(left[1..], lkey, right, rkey)
  }

  /** Some join row pairs the left row `l`. */
  ghost predicate Paired<L, R>(rows: seq<(L, Option<R>)>, l: L)
  {
    exists k | 0 <= k < |rows| :: rows[k].0 == l
  }

  /** Every left row is paired in at least one join row, whatever the right feed holds. */
  lemma {:induction false} LeftJoinKeepsLeftRow<L, R>(left: seq<L>, lkey: L -> int, right: seq<R>, rkey: R -> int, k: int)
    requires 0 <= k < |left|
    ensures Paired(LeftJoin(left, lkey, right, rkey), left[k])
  {
    var head := JoinOne(left[0], Matching(right, rkey, lkey(left[0])));
    var tail := LeftJoin(left[1..], lkey, right, rkey);
    assert LeftJoin(left, lkey, right, rkey) == head + tail;
    if k == 0 {
      assert (head + tail)[0] == head[0];
    } else {
      LeftJoinKeepsLeftRow(left[1..], lkey, right, rkey, k - 1);
      var j :| 0 <= j < |tail| && tail[j].0 == left[1..][k - 1];
      ConcatIndexRight(head, tail, |head| + j);
    }
  }

  /** A left join drops no left row. */
  lemma LeftJoinKeepsLeftRows<L, R>(left: seq<L>, lkey: L -> int, right: seq<R>, rkey: R -> int)
    ensures forall k | 0 <= k < |left| :: Paired(LeftJoin(left, lkey, right, rkey), left[k])
  {
    forall k | 0 <= k < |left| {
      LeftJoinKeepsLeftRow(left, lkey, right, rkey, k);
    }
  }

  /** No two rows of a feed share a key. */
  ghost predicate UniqueKeys<R>(rows: seq<R>, key: R -> int)
  {
    forall i, j | 0 <= i < j < |rows| :: key(rows[i]) != key(rows[j])
  }

  lemma {:induction false} MatchingUnique<R>(right: seq<R>, key: R -> int, id: int)
    requires UniqueKeys(right, key)
    ensures |Matching(right, key, id)| <= 1
  {
    if right != [] {
      var rest := right[1..];
      assert UniqueKeys(rest, key) by {
        forall i, j | 0 <= i < j < |rest| ensures key(rest[i]) != key(rest[j]) {
          assert rest[i] == right[i + 1] && rest[j] == right[j + 1];
        }
      }
      MatchingUnique(rest, key, id);
      if key(right[0]) == id {
        // every later row has another key, so nothing after the first row matches
        forall k | 0 <= k < |rest| ensures key(rest[k]) != id {
          assert rest[k] == right[k + 1];
        }
        assert !HasKey(rest, key, id);
      }
    }
  }

  /** With unique right-hand keys one left row yields one join row, whose right side is absent exactly when no key matches. */
  lemma JoinOneUnique<L, R>(l: L, lkey: L -> int, right: seq<R>, rkey: R -> int)
    requires UniqueKeys(right, rkey)
    ensures var head := JoinOne(l, Matching(right, rkey, lkey(l)));
      |head| == 1 && head[0].0 == l && (head[0].1.None? <==> !HasKey(right, rkey, lkey(l)))
  {
    MatchingUnique(right, rkey, lkey(l));
  }

  /** With unique right-hand keys a left join has exactly one row per left row. */
  lemma {:induction false} LeftJoinUniqueLength<L, R>(left: seq<L>, lkey: L -> int, right: seq<R>, rkey: R -> int)
    requires UniqueKeys(right, rkey)
    ensures |LeftJoin(left, lkey, right, rkey)| == |left|
  {
    if left != [] {
      JoinOneUnique(left[0], lkey, right, rkey);
      LeftJoinUniqueLength(left[1..], lkey, right, rkey);
    }
  }

  /** With unique right-hand keys the i-th join row is the i-th left row, unmatched exactly when no right key equals its key. */
  lemma {:induction false} LeftJoinUniqueAt<L, R>(left: seq<L>, lkey: L -> int, right: seq<R>, rkey: R -> int, i: int)
    requires UniqueKeys(right, rkey) && 0 <= i < |left|
    ensures |LeftJoin(left, lkey, right, rkey)| == |left|
    ensures LeftJoin(left, lkey, right, rkey)[i].0 == left[i]
    ensures LeftJoin(left, lkey, right, rkey)[i].1.None? <==> !HasKey(right, rkey, lkey(left[i]))
  {
    LeftJoinUniqueLength(left, lkey, right, rkey);
    var head := JoinOne(left[0], Matching(right, rkey, lkey(left[0])));
    var tail := LeftJoin(left[1..], lkey, right, rkey);
    JoinOneUnique(left[0], lkey, right, rkey);
    assert LeftJoin(left, lkey, right, rkey) == head + tail;
    if i == 0 {
      assert (head + tail)[0] == head[0];
    } else {
      LeftJoinUniqueAt(left[1..], lkey, right, rkey, i - 1);
      ConcatIndexRight(head, tail, i);
      assert left[1..][i - 1] == left[i];
    }
  }

  lemma ConcatIndexRight<T>(a: seq<T>, b: seq<T>, i: int)
    requires |a| <= i < |a| + |b|
    ensures (a + b)[i] == b[i - |a|]
  {
  }

  /** With unique right-hand keys, a left join keeps the left rows one for one and in order. */
  lemma LeftJoinUnique<L, R>(left: seq<L>, lkey: L -> int, right: seq<R>, rkey: R -> int)
    requires UniqueKeys(right, rkey)
    ensures |LeftJoin(left, lkey, right, rkey)| == |left|
    ensures forall i | 0 <= i < |left| :: LeftJoin(left, lkey, right, rkey)[i].0 == left[i]
    ensures forall i | 0 <= i < |left| ::
      (LeftJoin(left, lkey, right, rkey)[i].1.None? <==> !HasKey(right, rkey, lkey(left[i])))
  {
    LeftJoinUniqueLength(left, lkey, right, rkey);
    forall i | 0 <= i < |left|
      ensures LeftJoin(left, lkey, right, rkey)[i].0 == left[i]
      ensures LeftJoin(left, lkey, right, rkey)[i].1.None? <==> !HasKey(right, rkey, lkey(left[i]))
    {
      LeftJoinUniqueAt(left, lkey, right, rkey, i);
    }
  }

  function DemandKey(d: DemandStat): int { d.productId }
  function InventoryKey(v: InventoryLevel): int { v.productId }
  function SupplierKey(s: SupplierTerms): int { s.productId }
  function StockedKey(p: (DemandStat, Option<InventoryLevel>)): int { p.0.productId }

  /** `demand.merge(inventory, how="left").merge(suppliers, how="left")` on product_id. */
  function Merge(demand: seq<DemandStat>, inventory: seq<InventoryLevel>, suppliers: seq<SupplierTerms>): (rows: seq<MergedRow>)
    ensures forall r | r in rows :: r.inventory.Some? ==> r.inventory.value in inventory && r.inventory.value.productId == r.demand.productId
    ensures forall r | r in rows :: r.supplier.Some? ==> r.supplier.value in suppliers && r.supplier.value.productId == r.demand.productId
  {
    var stocked := LeftJoin(demand, DemandKey, inventory, InventoryKey);
    var joined := LeftJoin(stocked, StockedKey, suppliers, SupplierKey);
    assert forall i | 0 <= i < |joined| :: joined[i] in joined && joined[i].0 in stocked;
    seq(|joined|, i requires 0 <= i < |joined| => MergedRow(joined[i].0.0, joined[i].0.1, joined[i].1))
  }

  /**
   * When product ids are unique in the inventory and supplier feeds there is
   * exactly one joined row per demand row, in demand order, and a right-hand
   * side is absent exactly when its feed has no row for the product.
   */
  lemma MergeOneRowPerDemand(demand: seq<DemandStat>, inventory: seq<InventoryLevel>, suppliers: seq<SupplierTerms>)
    requires UniqueKeys(inventory, InventoryKey) && UniqueKeys(suppliers, SupplierKey)
    ensures |Merge(demand, inventory, suppliers)| == |demand|
    ensures forall i | 0 <= i < |demand| :: Merge(demand, inventory, suppliers)[i].demand == demand[i]
    ensures forall i | 0 <= i < |demand| ::
      (Merge(demand, inventory, suppliers)[i].inventory.None? <==> !HasKey(inventory, InventoryKey, demand[i].productId))
    ensures forall i | 0 <= i < |demand| ::
      (Merge(demand, inventory, suppliers)[i].supplier.None? <==> !HasKey(suppliers, SupplierKey, demand[i].productId))
  {
    var stocked := LeftJoin(demand, DemandKey, inventory, InventoryKey);
    LeftJoinUnique(demand, DemandKey, inventory, InventoryKey);
    LeftJoinUnique(stocked, StockedKey, suppliers, SupplierKey);
  }

  // ---------------------------------------------------------------------------
  // Defaulting and the per-row policy
  // ---------------------------------------------------------------------------

  /** pandas `fillna(default)` on one cell. */
  function FillNa(v: Option<real>, default: real): (r: real)
    ensures v.Some? ==> r == v.value
    ensures v.None? ==> r == default
  {
    match v
    case Some(x) => x
    case None => default
  }

  /** Both right-hand sides of the join are present. */
  predicate Complete(row: MergedRow)
  {
    row.inventory.Some? && row.supplier.Some?
  }

  /** The joined row after the two `fillna` calls. */
  function Fill(row: MergedRow): (p: PolicyInput)
    requires Complete(row)
    ensures p.productId == row.demand.productId
    ensures p.qtyOnHand == row.inventory.value.qtyOnHand
    ensures p.supplierId == row.supplier.value.supplierId && p.leadTimeDays == row.supplier.value.leadTimeDays
    ensures p.minOrderQty == row.supplier.value.minOrderQty
    ensures row.demand.avgDailyUnits.None? ==> p.avgDailyUnits == DefaultAvgDailyUnits
    ensures row.demand.avgDailyUnits.Some? ==> p.avgDailyUnits == row.demand.avgDailyUnits.value
    ensures row.demand.stdDailyUnits.None? ==> p.stdDailyUnits == DefaultStdDailyUnits
    ensures row.demand.stdDailyUnits.Some? ==> p.stdDailyUnits == row.demand.stdDailyUnits.value
  {
    var v, s := row.inventory.value, row.supplier.value;
    PolicyInput(
      row.demand.productId, s.supplierId, s.supplierName, v.qtyOnHand,
      FillNa(row.demand.avgDailyUnits, DefaultAvgDailyUnits),
      FillNa(row.demand.stdDailyUnits, DefaultStdDailyUnits),
      s.leadTimeDays, s.minOrderQty)
  }

  /** `round(z * std * sqrt(L))`. */
  function SafetyStock(z: real, stdDailyUnits: real, sqrtLead: real): (ss: int)
    ensures IsRoundHalfEven(z * stdDailyUnits * sqrtLead, ss)
  {
    RoundHalfEven(z * stdDailyUnits * sqrtLead)
  }

  /** `round(avg * L + safety_stock)`. */
  function ReorderPoint(avgDailyUnits: real, leadTimeDays: int, safetyStock: int): (rop: int)
    ensures IsRoundHalfEven(avgDailyUnits * leadTimeDays as real + safetyStock as real, rop)
  {
    RoundHalfEven(avgDailyUnits * leadTimeDays as real + safetyStock as real)
  }

  /** `qty_on_hand < reorder_point`: stock equal to the reorder point does not trigger. */
  function BelowReorderPoint(qtyOnHand: int, reorderPoint: int): (below: bool)
    ensures below ==> reorderPoint - qtyOnHand >= 1
    ensures !below ==> qtyOnHand >= reorderPoint
  {
    qtyOnHand < reorderPoint
  }

  /** `round(clip0(reorder_point + avg * review_period - qty_on_hand))`. */
  function RawOrderQty(reorderPoint: int, avgDailyUnits: real, reviewPeriod: int, qtyOnHand: int): (q: int)
    ensures q >= 0
  {
    RoundHalfEven(ClipLower0(reorderPoint as real + avgDailyUnits * reviewPeriod as real - qtyOnHand as real))
  }

  /** `where(below_rop, maximum(raw, min_order_qty), 0)`. */
  function SuggestedOrderQty(belowRop: bool, rawOrderQty: int, minOrderQty: int): (q: int)
    ensures !belowRop ==> q == 0
    ensures belowRop ==> q >= rawOrderQty && q >= minOrderQty && (q == rawOrderQty || q == minOrderQty)
  {
    if belowRop then (if rawOrderQty >= minOrderQty then rawOrderQty else minOrderQty) else 0
  }

  /** All derived columns of one row. */
  function Decide(p: PolicyInput, z: real, sqrtLead: real, reviewPeriod: int): (d: Decision)
    ensures d.input == p
    ensures d.belowRop <==> p.qtyOnHand < d.reorderPoint
    ensures d.rawOrderQty >= 0
    ensures d.suggestedOrderQty != 0 ==> d.belowRop
  {
    var ss := SafetyStock(z, p.stdDailyUnits, sqrtLead);
    var rop := ReorderPoint(p.avgDailyUnits, p.leadTimeDays, ss);
    var below := BelowReorderPoint(p.qtyOnHand, rop);
    var raw := RawOrderQty(rop, p.avgDailyUnits, reviewPeriod, p.qtyOnHand);
    Decision(p, ss, rop, below, raw, SuggestedOrderQty(below, raw, p.minOrderQty))
  }

  /** `s` is the square root of the lead time, as `np.sqrt` gives it. */
  predicate IsSqrtOf(s: real, leadTimeDays: int)
  {
    s >= 0.0 && s * s == leadTimeDays as real
  }

  /** Safety stock is a non-negative integer for a non-negative z and standard deviation. */
  lemma SafetyStockNonNegative(z: real, stdDailyUnits: real, sqrtLead: real)
    requires z >= 0.0 && stdDailyUnits >= 0.0 && sqrtLead >= 0.0
    ensures SafetyStock(z, stdDailyUnits, sqrtLead) >= 0
  {
    assert z * stdDailyUnits >= 0.0;
    assert z * stdDailyUnits * sqrtLead >= 0.0;
  }

  /** The reorder point never falls below the safety stock when lead-time demand is non-negative. */
  lemma ReorderPointAtLeastSafetyStock(avgDailyUnits: real, leadTimeDays: int, safetyStock: int)
    requires avgDailyUnits * leadTimeDays as real >= 0.0
    ensures ReorderPoint(avgDailyUnits, leadTimeDays, safetyStock) >= safetyStock
  {
    RoundAtLeast(avgDailyUnits * leadTimeDays as real + safetyStock as real, safetyStock);
  }

  /**
   * The gate on the suggested quantity: zero when stock is at or above the
   * reorder point; otherwise at least the supplier minimum and at least the
   * raw quantity. It is never negative.
   */
  lemma SuggestionIsGated(p: PolicyInput, z: real, sqrtLead: real, reviewPeriod: int)
    ensures var d := Decide(p, z, sqrtLead, reviewPeriod);
      && (d.belowRop <==> p.qtyOnHand < d.reorderPoint)
      && d.rawOrderQty >= 0
      && (!d.belowRop ==> d.suggestedOrderQty == 0)
      && (d.belowRop ==> d.suggestedOrderQty >= p.minOrderQty && d.suggestedOrderQty >= d.rawOrderQty)
      && d.suggestedOrderQty >= 0
      && (d.suggestedOrderQty != 0 ==> d.belowRop)
  {
  }

  /**
   * Below the reorder point the order covers at least one unit, because the
   * shortfall is at least one and the review-period demand is non-negative.
   */
  lemma SuggestionAtLeastOneWhenBelow(p: PolicyInput, z: real, sqrtLead: real, reviewPeriod: int)
    requires p.avgDailyUnits >= 0.0 && reviewPeriod >= 0
    ensures var d := Decide(p, z, sqrtLead, reviewPeriod);
      d.belowRop ==> d.rawOrderQty >= 1 && d.suggestedOrderQty >= 1
  {
    var d := Decide(p, z, sqrtLead, reviewPeriod);
    if d.belowRop {
      var x := d.reorderPoint as real + p.avgDailyUnits * reviewPeriod as real - p.qtyOnHand as real;
      assert p.avgDailyUnits * reviewPeriod as real >= 0.0;
      assert x >= 1.0;
      RoundAtLeast(ClipLower0(x), 1);
    }
  }

  /** The invariants of one row under the domain's sign conditions. */
  lemma DecisionInvariants(p: PolicyInput, z: real, sqrtLead: real, reviewPeriod: int)
    requires z >= 0.0 && p.stdDailyUnits >= 0.0 && IsSqrtOf(sqrtLead, p.leadTimeDays)
    requires p.avgDailyUnits >= 0.0 && p.leadTimeDays >= 0 && reviewPeriod >= 0
    ensures var d := Decide(p, z, sqrtLead, reviewPeriod);
      && 0 <= d.safetyStock <= d.reorderPoint
      && (d.belowRop ==> d.suggestedOrderQty >= 1)
      && (!d.belowRop ==> d.suggestedOrderQty == 0)
  {
    var ss := SafetyStock(z, p.stdDailyUnits, sqrtLead);
    SafetyStockNonNegative(z, p.stdDailyUnits, sqrtLead);
    assert p.avgDailyUnits * p.leadTimeDays as real >= 0.0;
    ReorderPointAtLeastSafetyStock(p.avgDailyUnits, p.leadTimeDays, ss);
    SuggestionAtLeastOneWhenBelow(p, z, sqrtLead, reviewPeriod);
  }

  // ---------------------------------------------------------------------------
  // The whole plan
  // ---------------------------------------------------------------------------

  /** The joined, defaulted rows; the model only covers joins in which every right-hand row is present. */
  function Inputs(demand: seq<DemandStat>, inventory: seq<InventoryLevel>, suppliers: seq<SupplierTerms>): (rows: seq<PolicyInput>)
    requires forall r | r in Merge(demand, inventory, suppliers) :: Complete(r)
    ensures |rows| == |Merge(demand, inventory, suppliers)|
    ensures forall i | 0 <= i < |rows| :: rows[i].productId == Merge(demand, inventory, suppliers)[i].demand.productId
  {
    var merged := Merge(demand, inventory, suppliers);
    seq(|merged|, i requires 0 <= i < |merged| => Fill(merged[i]))
  }

  /** The reorder plan: every joined row with its derived columns. */
  function Plan(rows: seq<PolicyInput>, z: real, sqrt: int -> real, reviewPeriod: int): (plan: seq<Decision>)
    ensures |plan| == |rows|
    ensures forall i | 0 <= i < |plan| :: plan[i].input == rows[i]
  {
    var plan := seq(|rows|, i requires 0 <= i < |rows| => Decide(rows[i], z, sqrt(rows[i].leadTimeDays), reviewPeriod));
    assert forall i | 0 <= i < |plan| :: plan[i] == Decide(rows[i], z, sqrt(rows[i].leadTimeDays), reviewPeriod);
    plan
  }

  /**
   * With unique product ids in the inventory and supplier feeds, the plan has
   * one row per demand row, in demand order; missing demand statistics are
   * replaced by 0.5 and 0.7 and present ones are kept.
   */
  lemma PlanOneRowPerDemand(
    demand: seq<DemandStat>, inventory: seq<InventoryLevel>, suppliers: seq<SupplierTerms>,
    z: real, sqrt: int -> real, reviewPeriod: int)
    requires forall r | r in Merge(demand, inventory, suppliers) :: Complete(r)
    requires UniqueKeys(inventory, InventoryKey) && UniqueKeys(suppliers, SupplierKey)
    ensures var plan := Plan(Inputs(demand, inventory, suppliers), z, sqrt, reviewPeriod);
      && |plan| == |demand|
      && forall i | 0 <= i < |demand| ::
        && plan[i].input.productId == demand[i].productId
        && (demand[i].avgDailyUnits.None? ==> plan[i].input.avgDailyUnits == DefaultAvgDailyUnits)
        && (demand[i].avgDailyUnits.Some? ==> plan[i].input.avgDailyUnits == demand[i].avgDailyUnits.value)
        && (demand[i].stdDailyUnits.None? ==> plan[i].input.stdDailyUnits == DefaultStdDailyUnits)
        && (demand[i].stdDailyUnits.Some? ==> plan[i].input.stdDailyUnits == demand[i].stdDailyUnits.value)
  {
    MergeOneRowPerDemand(demand, inventory, suppliers);
    var merged := Merge(demand, inventory, suppliers);
    var rows := Inputs(demand, inventory, suppliers);
    var plan := Plan(rows, z, sqrt, reviewPeriod);
    forall i | 0 <= i < |demand|
      ensures plan[i].input == Fill(merged[i]) && merged[i].demand == demand[i]
    {
      assert plan[i].input == rows[i];
    }
  }

  /** Every row of the plan satisfies the row invariants when the inputs have the domain's signs. */
  lemma PlanInvariants(rows: seq<PolicyInput>, z: real, sqrt: int -> real, reviewPeriod: int)
    requires z >= 0.0 && reviewPeriod >= 0
    requires forall i | 0 <= i < |rows| ::
      && rows[i].avgDailyUnits >= 0.0 && rows[i].stdDailyUnits >= 0.0 && rows[i].leadTimeDays >= 0
      && IsSqrtOf(sqrt(rows[i].leadTimeDays), rows[i].leadTimeDays)
    ensures var plan := Plan(rows, z, sqrt, reviewPeriod);
      && |plan| == |rows|
      && forall i | 0 <= i < |plan| ::
        && plan[i].input == rows[i]
        && 0 <= plan[i].safetyStock <= plan[i].reorderPoint
        && (plan[i].belowRop <==> rows[i].qtyOnHand < plan[i].reorderPoint)
        && (plan[i].belowRop ==> plan[i].suggestedOrderQty >= rows[i].minOrderQty && plan[i].suggestedOrderQty >= 1)
        && (!plan[i].belowRop ==> plan[i].suggestedOrderQty == 0)
  {
    forall i | 0 <= i < |rows|
      ensures var d := Decide(rows[i], z, sqrt(rows[i].leadTimeDays), reviewPeriod);
        0 <= d.safetyStock <= d.reorderPoint && (d.belowRop ==> d.suggestedOrderQty >= 1)
    {
      DecisionInvariants(rows[i], z, sqrt(rows[i].leadTimeDays), reviewPeriod);
    }
  }

  // ---------------------------------------------------------------------------
  // Worked cases
  // ---------------------------------------------------------------------------

  /** mean 5, std 2, lead time 7, z near 1.645: safety stock 9 and reorder point 44. */
  lemma SafetyStockScenario(z: real, sqrtLead: real)
    requires 1.64 <= z <= 1.65 && IsSqrtOf(sqrtLead, 7)
    ensures SafetyStock(z, 2.0, sqrtLead) == 9
    ensures ReorderPoint(5.0, 7, 9) == 44
  {
    assert 2.6 < sqrtLead < 2.7;
    var x := z * 2.0 * sqrtLead;
    assert 8.5 < x < 9.5 by {
      assert z * sqrtLead >= 1.64 * sqrtLead;
      assert z * sqrtLead <= 1.65 * sqrtLead;
    }
    RoundHalfEvenUnique(x, 9);
    RoundOfInt(44);
  }

  /** Reorder point 44, mean 5, review period 7: the three documented outcomes. */
  lemma SuggestionScenarios()
    ensures RawOrderQty(44, 5.0, 7, 30) == 49
    ensures SuggestedOrderQty(BelowReorderPoint(30, 44), RawOrderQty(44, 5.0, 7, 30), 20) == 49
    ensures SuggestedOrderQty(BelowReorderPoint(30, 44), RawOrderQty(44, 5.0, 7, 30), 60) == 60
    ensures !BelowReorderPoint(50, 44) && SuggestedOrderQty(BelowReorderPoint(50, 44), RawOrderQty(44, 5.0, 7, 50), 20) == 0
  {
    RoundOfInt(49);
  }
}
