/**
 The stock ledger and the plans of the inventory recovery: what each phase finds, as functions of
 the tables, and what each phase writes.  Quantities are stored with three decimals, costs with
 four.
 */
module Inventory {
  import opened Options
  import opened Columns
  import opened Units
  import opened Materials

  // ----- Rows -----

  /** A decimal that a division by zero may have spoilt. */
  datatype Cost = Finite(value: real) | NotFinite

  datatype Batch = Batch(id: nat, material: nat, venue: nat, active: bool, unit: Unit, initial: real, remaining: real, cost: Cost)

  ghost predicate UniqueBatches(bs: seq<Batch>) {
    forall i, j :: 0 <= i < j < |bs| ==> bs[i].id != bs[j].id
  }

  /** The foreign key of batches. */
  ghost predicate HaveMaterials(ms: seq<Material>, bs: seq<Batch>) {
    forall b :: b in bs ==> HasMaterial(ms, b.material)
  }

  /** Primary keys, the foreign key of batches, and the precision of the columns. */
  ghost predicate IsLedger(ms: seq<Material>, bs: seq<Batch>) {
    && UniqueMaterials(ms)
    && UniqueBatches(bs)
    && (forall m :: m in ms ==> Fits(m.stock, MILLI))
    && (forall b :: b in bs ==> HasMaterial(ms, b.material) && Fits(b.remaining, MILLI))
  }

  // ----- Phase 1: materials with stock but nothing to take it from -----

  datatype BackfillPlan = BackfillPlan(material: nat, unit: Unit, stock: real, cost: real)

  /** The batches of the material that the query joins: active, and with something left. */
  predicate IsOpenBatch(b: Batch, id: nat) {
    b.material == id && b.active && b.remaining > 0.0
  }

  predicate NeedsBackfill(m: Material, bs: seq<Batch>, venue: nat) {
    IsLive(m, venue) && m.stock > 0.0 && forall b | b in bs :: !IsOpenBatch(b, m.id)
  }

  function BackfillOf(m: Material): BackfillPlan {
    BackfillPlan(m.id, m.unit, m.stock, m.cost)
  }

  function Backfills(ms: seq<Material>, bs: seq<Batch>, venue: nat): seq<BackfillPlan> {
    if ms == [] then []
    else
      var n := |ms| - 1;
      Backfills(ms[..n], bs, venue) + if NeedsBackfill(ms[n], bs, venue) then [BackfillOf(ms[n])] else []
  }

  // ----- Phase 2: batches in another unit than their material -----

  datatype NormalizePlan = NormalizePlan(batch: nat, toUnit: Unit, initialAfter: real, remainingAfter: real, costAfter: Cost)

  predicate NeedsNormalizing(b: Batch, m: Material, venue: nat) {
    b.venue == venue && b.active && b.unit != m.unit && AreCompatible(b.unit, m.unit)
  }

  /** What a quantity is worth at a cost per unit. */
  function Value(cost: real, quantity: real): real {
    cost * quantity
  }

  /** The cost per unit that spreads the initial value over the converted quantity. */
  function SpreadCost(cost: real, initial: real, initialAfter: real): real
    requires initialAfter != 0.0
  {
    cost * initial / initialAfter
  }

  function CostAfter(cost: Cost, initial: real, initialAfter: real): Cost {
    if cost.NotFinite? || initialAfter == 0.0 then NotFinite
    else Finite(SpreadCost(cost.value, initial, initialAfter))
  }

  function NormalizeOf(b: Batch, unit: Unit): NormalizePlan
    requires AreCompatible(b.unit, unit)
  {
    var initialAfter := Convert(b.initial, b.unit, unit);
    NormalizePlan(b.id, unit, initialAfter, Convert(b.remaining, b.unit, unit), CostAfter(b.cost, b.initial, initialAfter))
  }

  function Mismatches(ms: seq<Material>, bs: seq<Batch>, venue: nat): seq<NormalizePlan>
    requires HaveMaterials(ms, bs)
  {
    if bs == [] then []
    else
      var n := |bs| - 1;
      var m := MaterialOf(ms, bs[n].material);
      Mismatches(ms, bs[..n], venue) + if NeedsNormalizing(bs[n], m, venue) then [NormalizeOf(bs[n], m.unit)] else []
  }

  // ----- Phase 3: what the stock should be -----

  datatype RecomputePlan = RecomputePlan(material: nat, before: real, after: real, delta: real)

  /** The entry of a map built from the plans: the last plan with that key. */
  function NormalizeFor(plans: seq<NormalizePlan>, id: nat): Option<NormalizePlan> {
    if plans == [] then None
    else
      var n := |plans| - 1;
      if plans[n].batch == id then Some(plans[n]) else NormalizeFor(plans[..n], id)
  }

  function BackfillFor(plans: seq<BackfillPlan>, id: nat): Option<BackfillPlan> {
    if plans == [] then None
    else
      var n := |plans| - 1;
      if plans[n].material == id then Some(plans[n]) else BackfillFor(plans[..n], id)
  }

  /** A quantity in the unit of the material; nothing when the units are incompatible. */
  function InUnit(quantity: real, from: Unit, to: Unit): real {
    if from == to then quantity
    else if AreCompatible(from, to) then Convert(quantity, from, to)
    else 0.0
  }

  /** What one batch adds to the stock of the material, with the pending normalisations simulated. */
  function Share(b: Batch, m: Material, normalizes: seq<NormalizePlan>): real {
    if b.material != m.id || !b.active then 0.0
    else
      match NormalizeFor(normalizes, b.id)
      case Some(p) => InUnit(p.remainingAfter, p.toUnit, m.unit)
      case None => InUnit(b.remaining, b.unit, m.unit)
  }

  function SharesOf(bs: seq<Batch>, m: Material, normalizes: seq<NormalizePlan>): real {
    if bs == [] then 0.0
    else SharesOf(bs[..|bs| - 1], m, normalizes) + Share(bs[|bs| - 1], m, normalizes)
  }

  function StockAfter(bs: seq<Batch>, m: Material, backfills: seq<BackfillPlan>, normalizes: seq<NormalizePlan>): real {
    SharesOf(bs, m, normalizes)
    + match BackfillFor(backfills, m.id)
      case Some(p) => p.stock
      case None => 0.0
  }

  function RecomputeOf(m: Material, after: real): RecomputePlan {
    RecomputePlan(m.id, m.stock, after, after - m.stock)
  }

  function Drift(ms: seq<Material>, bs: seq<Batch>, venue: nat, backfills: seq<BackfillPlan>, normalizes: seq<NormalizePlan>): seq<RecomputePlan> {
    if ms == [] then []
    else
      var n := |ms| - 1;
      var after := StockAfter(bs, ms[n], backfills, normalizes);
      Drift(ms[..n], bs, venue, backfills, normalizes)
      + if IsLive(ms[n], venue) && after != ms[n].stock then [RecomputeOf(ms[n], after)] else []
  }

  // ----- What the phases write -----

  /** A key that no batch has yet. */
  function FreshId(bs: seq<Batch>): (id: nat)
    ensures forall b :: b in bs ==> b.id < id
  {
    if bs == [] then 0
    else
      var rest := FreshId(bs[1..]);
      if bs[0].id >= rest then bs[0].id + 1 else rest
  }

  function NewBatch(id: nat, p: BackfillPlan, venue: nat): Batch {
    var quantity := Stored(p.stock, MILLI);
    Batch(id, p.material, venue, true, p.unit, quantity, quantity, Finite(Stored(p.cost, TENTH_MILLI)))
  }

  function AfterBackfill(bs: seq<Batch>, plans: seq<BackfillPlan>, venue: nat): seq<Batch> {
    if plans == [] then bs
    else
      var n := |plans| - 1;
      var before := AfterBackfill(bs, plans[..n], venue);
      before + [NewBatch(FreshId(before), plans[n], venue)]
  }

  function StoredCost(cost: Cost): Cost {
    if cost.Finite? then Finite(Stored(cost.value, TENTH_MILLI)) else NotFinite
  }

  function Normalized(b: Batch, p: NormalizePlan): Batch {
    b.(unit := p.toUnit, initial := Stored(p.initialAfter, MILLI), remaining := Stored(p.remainingAfter, MILLI), cost := StoredCost(p.costAfter))
  }

  /** The update of the rows with the key of the plan. */
  function UpdateBatch(bs: seq<Batch>, p: NormalizePlan): seq<Batch> {
    seq(|bs|, k requires 0 <= k < |bs| => if bs[k].id == p.batch then Normalized(bs[k], p) else bs[k])
  }

  function AfterNormalize(bs: seq<Batch>, plans: seq<NormalizePlan>): seq<Batch> {
    if plans == [] then bs
    else UpdateBatch(AfterNormalize(bs, plans[..|plans| - 1]), plans[|plans| - 1])
  }

  /** The plan that the last update of a material comes from. */
  function RecomputeFor(plans: seq<RecomputePlan>, id: nat): Option<RecomputePlan> {
    if plans == [] then None
    else
      var n := |plans| - 1;
      if plans[n].material == id then Some(plans[n]) else RecomputeFor(plans[..n], id)
  }

  function UpdateStock(ms: seq<Material>, p: RecomputePlan): seq<Material> {
    seq(|ms|, k requires 0 <= k < |ms| => if ms[k].id == p.material then ms[k].(stock := Stored(p.after, MILLI)) else ms[k])
  }

  function AfterRecompute(ms: seq<Material>, plans: seq<RecomputePlan>): seq<Material> {
    if plans == [] then ms
    else UpdateStock(AfterRecompute(ms, plans[..|plans| - 1]), plans[|plans| - 1])
  }

  /** The batches after phases 1 and 2. */
  function Repaired(ms: seq<Material>, bs: seq<Batch>, venue: nat): seq<Batch>
    requires HaveMaterials(ms, bs)
  {
    AfterNormalize(AfterBackfill(bs, Backfills(ms, bs, venue), venue), Mismatches(ms, bs, venue))
  }
}
