/**
 What an execution of the inventory recovery leaves in the tables, row by row and field by field.
 */
module InventoryRows {
  import opened Options
  import opened Columns
  import opened Units
  import opened Materials
  import opened Inventory
  import opened InventoryLaws
  import opened InventoryAborted
  import opened InventoryFixedPoint
  import opened InventorySecondRun

  // ----- The new batches -----

  /** A batch of the material's whole stock, at the material's own cost per unit. */
  ghost predicate IsStockOf(row: Batch, m: Material, venue: nat) {
    && row.material == m.id && row.venue == venue && row.active && row.unit == m.unit
    && row.initial == m.stock && row.remaining == m.stock
    && row.cost == Finite(Stored(m.cost, TENTH_MILLI))
  }

  ghost predicate IsForLacking(ms: seq<Material>, bs: seq<Batch>, venue: nat, row: Batch) {
    exists m :: m in ms && LacksBatches(m, bs, venue) && IsStockOf(row, m, venue)
  }

  ghost predicate HasStockOf(added: seq<Batch>, m: Material, venue: nat) {
    exists row :: row in added && IsStockOf(row, m, venue)
  }

  ghost predicate IsNew(row: Batch, bs: seq<Batch>) {
    forall b :: b in bs ==> b.id != row.id
  }

  /** Exactly one new batch for each live material with stock but nothing active left to take it from, and no other. */
  ghost predicate AreStock(ms: seq<Material>, bs: seq<Batch>, venue: nat, added: seq<Batch>) {
    && (forall row :: row in added ==> IsNew(row, bs) && IsForLacking(ms, bs, venue, row))
    && (forall j, k :: 0 <= j < k < |added| ==> added[j].material != added[k].material)
    && (forall m :: m in ms && LacksBatches(m, bs, venue) ==> HasStockOf(added, m, venue))
  }

  ghost predicate HaveKeysOf(rows: seq<Batch>, bs: seq<Batch>)
    requires |bs| <= |rows|
  {
    forall k :: 0 <= k < |bs| ==> rows[k].id == bs[k].id
  }

  /** The old rows stay in their places, and the new ones are behind them. */
  ghost predicate AddsStock(ms: seq<Material>, bs: seq<Batch>, venue: nat, rows: seq<Batch>) {
    |bs| <= |rows| && HaveKeysOf(rows, bs) && AreStock(ms, bs, venue, rows[|bs|..])
  }

  lemma {:induction false} BackfilledAt(bs: seq<Batch>, plans: seq<BackfillPlan>, venue: nat, k: nat)
    requires k < |plans|
    ensures |AfterBackfill(bs, plans, venue)| == |bs| + |plans|
    ensures var row := AfterBackfill(bs, plans, venue)[|bs| + k];
            row == NewBatch(row.id, plans[k], venue) && forall b :: b in bs ==> b.id < row.id
    decreases |plans|
  {
    var n := |plans| - 1;
    var before := AfterBackfill(bs, plans[..n], venue);
    BackfillsAdd(bs, plans[..n], venue);
    AfterBackfillKeeps(bs, plans[..n], venue);
    if k < n {
      BackfilledAt(bs, plans[..n], venue, k);
    } else {
      forall b | b in bs ensures b in before {
      }
    }
  }

  /** Each plan is for one lacking material, and has its stock, its unit and its cost. */
  lemma PlanIsForLacking(ms: seq<Material>, bs: seq<Batch>, venue: nat, p: BackfillPlan) returns (m: Material)
    requires UniqueMaterials(ms) && p in Backfills(ms, bs, venue)
    ensures m in ms && LacksBatches(m, bs, venue) && p == BackfillPlan(m.id, m.unit, m.stock, m.cost)
  {
    BackfillsOnePlanEach(ms, bs, venue);
    var k :| 0 <= k < |ms| && ms[k].id == p.material;
    m := ms[k];
    BackfillForMaterial(ms, bs, venue, m);
    BackfillForMeaning(Backfills(ms, bs, venue), m.id);
  }

  lemma NewRowIsStock(ms: seq<Material>, bs: seq<Batch>, venue: nat, k: nat)
    requires IsLedger(ms, bs) && k < |Backfills(ms, bs, venue)|
    ensures |AfterBackfill(bs, Backfills(ms, bs, venue), venue)| == |bs| + |Backfills(ms, bs, venue)|
    ensures var row := AfterBackfill(bs, Backfills(ms, bs, venue), venue)[|bs| + k];
            && IsNew(row, bs) && IsForLacking(ms, bs, venue, row)
            && row.material == Backfills(ms, bs, venue)[k].material
  {
    var plans := Backfills(ms, bs, venue);
    BackfilledAt(bs, plans, venue, k);
    assert plans[k] in plans;
    var m := PlanIsForLacking(ms, bs, venue, plans[k]);
    StoredKeepsIffFits(m.stock, MILLI);
    assert IsStockOf(AfterBackfill(bs, plans, venue)[|bs| + k], m, venue);
  }

  lemma LackingHasStock(ms: seq<Material>, bs: seq<Batch>, venue: nat, m: Material)
    requires IsLedger(ms, bs) && m in ms && LacksBatches(m, bs, venue)
    ensures |AfterBackfill(bs, Backfills(ms, bs, venue), venue)| == |bs| + |Backfills(ms, bs, venue)|
    ensures HasStockOf(AfterBackfill(bs, Backfills(ms, bs, venue), venue)[|bs|..], m, venue)
  {
    var plans := Backfills(ms, bs, venue);
    BackfillsAdd(bs, plans, venue);
    var added := AfterBackfill(bs, plans, venue)[|bs|..];
    BackfillForMaterial(ms, bs, venue, m);
    BackfillForMeaning(plans, m.id);
    var k :| 0 <= k < |plans| && plans[k] == BackfillPlan(m.id, m.unit, m.stock, m.cost);
    BackfilledAt(bs, plans, venue, k);
    StoredKeepsIffFits(m.stock, MILLI);
    assert added[k] in added && IsStockOf(added[k], m, venue);
  }

  lemma BackfillAddsStock(ms: seq<Material>, bs: seq<Batch>, venue: nat)
    requires IsLedger(ms, bs)
    ensures AddsStock(ms, bs, venue, AfterBackfill(bs, Backfills(ms, bs, venue), venue))
  {
    var plans := Backfills(ms, bs, venue);
    var filled := AfterBackfill(bs, plans, venue);
    AfterBackfillKeeps(bs, plans, venue);
    BackfillsAdd(bs, plans, venue);
    BackfillsOnePlanEach(ms, bs, venue);
    var added := filled[|bs|..];
    forall k | 0 <= k < |added| ensures IsNew(added[k], bs) && IsForLacking(ms, bs, venue, added[k]) && added[k].material == plans[k].material {
      NewRowIsStock(ms, bs, venue, k);
    }
    forall m | m in ms && LacksBatches(m, bs, venue) ensures HasStockOf(added, m, venue) {
      LackingHasStock(ms, bs, venue, m);
    }
  }

  /** Updates of old rows leave the new ones as they are. */
  lemma NormalizeKeepsStock(ms: seq<Material>, bs: seq<Batch>, venue: nat, filled: seq<Batch>, plans: seq<NormalizePlan>)
    requires AddsStock(ms, bs, venue, filled)
    requires forall row :: row in filled[|bs|..] ==> NormalizeFor(plans, row.id) == None
    ensures AddsStock(ms, bs, venue, AfterNormalize(filled, plans))
  {
    var rows := AfterNormalize(filled, plans);
    AfterNormalizeRow(filled, plans);
    forall k | |bs| <= k < |rows| ensures rows[k] == filled[k] {
      assert filled[k] in filled[|bs|..];
    }
    assert rows[|bs|..] == filled[|bs|..];
  }

  lemma ExecutionAddsStock(ms: seq<Material>, bs: seq<Batch>, venue: nat, plans: seq<NormalizePlan>)
    requires IsLedger(ms, bs) && PlansWithin(bs, plans)
    ensures AddsStock(ms, bs, venue, AfterNormalize(AfterBackfill(bs, Backfills(ms, bs, venue), venue), plans))
  {
    var backfills := Backfills(ms, bs, venue);
    var filled := AfterBackfill(bs, backfills, venue);
    BackfillAddsStock(ms, bs, venue);
    BackfillsAdd(bs, backfills, venue);
    var added := filled[|bs|..];
    forall row | row in added ensures NormalizeFor(plans, row.id) == None {
      var k :| 0 <= k < |backfills| && added[k] == row;
      BackfilledAt(bs, backfills, venue, k);
    }
    NormalizeKeepsStock(ms, bs, venue, filled, plans);
  }

  /** Stopped half way or not, an execution backfills what lacks batches, and nothing else. */
  lemma BackfilledRows(ms: seq<Material>, bs: seq<Batch>, venue: nat)
    requires IsLedger(ms, bs)
    ensures AddsStock(ms, bs, venue, Repaired(ms, bs, venue))
    ensures AddsStock(ms, bs, venue, Interrupted(ms, bs, venue))
  {
    var plans := Mismatches(ms, bs, venue);
    MismatchesWithin(ms, bs, venue);
    ExecutionAddsStock(ms, bs, venue, plans);
    forall id | forall b :: b in bs ==> b.id < id ensures NormalizeFor(plans[..Writable(plans)], id) == None {
      NoPlanInPrefix(plans, Writable(plans), id);
    }
    ExecutionAddsStock(ms, bs, venue, plans[..Writable(plans)]);
  }

  lemma {:induction false} NoPlanInPrefix(plans: seq<NormalizePlan>, n: nat, id: nat)
    requires n <= |plans| && NormalizeFor(plans, id) == None
    ensures NormalizeFor(plans[..n], id) == None
    decreases |plans|
  {
    if n == |plans| {
      assert plans[..n] == plans;
    } else {
      NoPlanInPrefix(plans[..|plans| - 1], n, id);
      assert plans[..|plans| - 1][..n] == plans[..n];
    }
  }

  // ----- The old batches -----

  /** In another unit, with the quantities it then holds, and all that was paid for it spread over them. */
  ghost predicate IsRewritten(b: Batch, unit: Unit, initial: real, remaining: real, row: Batch) {
    && row.id == b.id && row.material == b.material && row.venue == b.venue && row.active && row.unit == unit
    && row.initial == Stored(initial, MILLI) && row.remaining == Stored(remaining, MILLI)
    && initial != 0.0 && b.cost.Finite? && row.cost == Finite(Stored(b.cost.value * b.initial / initial, TENTH_MILLI))
  }

  lemma RewrittenRow(b: Batch, unit: Unit, initial: real, remaining: real)
    requires b.active && b.cost.Finite? && initial != 0.0
    ensures IsRewritten(b, unit, initial, remaining,
                        Normalized(b, NormalizePlan(b.id, unit, initial, remaining, CostAfter(b.cost, b.initial, initial))))
  {
    assert SpreadCost(b.cost.value, b.initial, initial) == b.cost.value * b.initial / initial;
  }

  /** An active batch of the venue in another unit of the same kind is rewritten; every other stays as it is. */
  ghost predicate IsRowOf(b: Batch, m: Material, venue: nat, row: Batch) {
    if b.venue == venue && b.active && b.unit != m.unit && TypeOf(b.unit) == TypeOf(m.unit) then
      IsRewritten(b, m.unit, Convert(b.initial, b.unit, m.unit), Convert(b.remaining, b.unit, m.unit), row)
    else row == b
  }

  ghost predicate KeepsOrRewrites(ms: seq<Material>, bs: seq<Batch>, venue: nat, rows: seq<Batch>) {
    |bs| <= |rows| && forall k, m :: 0 <= k < |bs| && m in ms && m.id == bs[k].material ==> IsRowOf(bs[k], m, venue, rows[k])
  }

  lemma OldRow(ms: seq<Material>, bs: seq<Batch>, venue: nat, b: Batch, m: Material)
    requires IsLedger(ms, bs) && NoneSpoilsCost(ms, bs, venue) && b in bs && m in ms && m.id == b.material
    ensures IsRowOf(b, m, venue, NormalizedRow(b, Mismatches(ms, bs, venue)))
  {
    MaterialIsOnly(ms, m);
    MismatchFor(ms, bs, venue, b);
    assert !SpoilsCost(b, m, venue);
    if NeedsNormalizing(b, m, venue) {
      RewrittenRow(b, m.unit, Convert(b.initial, b.unit, m.unit), Convert(b.remaining, b.unit, m.unit));
    }
  }

  lemma OldRows(ms: seq<Material>, bs: seq<Batch>, venue: nat)
    requires IsLedger(ms, bs) && NoneSpoilsCost(ms, bs, venue)
    ensures KeepsOrRewrites(ms, bs, venue, Repaired(ms, bs, venue))
  {
    var filled := AfterBackfill(bs, Backfills(ms, bs, venue), venue);
    AfterBackfillKeeps(bs, Backfills(ms, bs, venue), venue);
    AfterNormalizeRow(filled, Mismatches(ms, bs, venue));
    forall k, m | 0 <= k < |bs| && m in ms && m.id == bs[k].material ensures IsRowOf(bs[k], m, venue, Repaired(ms, bs, venue)[k]) {
      assert filled[k] == bs[k] && bs[k] in bs;
      OldRow(ms, bs, venue, bs[k], m);
    }
  }

  // ----- The stocks -----

  /** What an active batch of the material holds, in the unit of the material; other kinds of unit hold nothing. */
  function Holds(row: Batch, m: Material): real {
    if row.material == m.id && row.active && TypeOf(row.unit) == TypeOf(m.unit) then Convert(row.remaining, row.unit, m.unit) else 0.0
  }

  function AllHold(rows: seq<Batch>, m: Material): real {
    if rows == [] then 0.0 else AllHold(rows[..|rows| - 1], m) + Holds(rows[|rows| - 1], m)
  }

  lemma {:induction false} SharesAreHeld(rows: seq<Batch>, m: Material)
    ensures SharesOf(rows, m, []) == AllHold(rows, m)
    decreases |rows|
  {
    if rows == [] {
    } else {
      SharesAreHeld(rows[..|rows| - 1], m);
    }
  }

  /** Live materials of the venue get the sum of what their batches hold, at column precision; nothing else changes. */
  ghost predicate Recomputes(ms: seq<Material>, venue: nat, rows: seq<Batch>, after: seq<Material>) {
    && |after| == |ms|
    && forall k :: 0 <= k < |ms| ==>
         after[k] == if ms[k].venue == venue && ms[k].active && !ms[k].deleted then ms[k].(stock := Stored(AllHold(rows, ms[k]), MILLI)) else ms[k]
  }

  lemma RecomputedStocks(ms: seq<Material>, bs: seq<Batch>, venue: nat)
    requires IsLedger(ms, bs)
    ensures Recomputes(ms, venue, Repaired(ms, bs, venue), Recovered(ms, bs, venue))
  {
    var rows := Repaired(ms, bs, venue);
    RecoveredRows(ms, bs, venue);
    forall k | 0 <= k < |ms| && IsLive(ms[k], venue) ensures RecoveredRow(ms[k], rows, venue).stock == Stored(AllHold(rows, ms[k]), MILLI) {
      assert ms[k] in ms;
      RecoveredStock(ms[k], rows, venue);
      SharesAreHeld(rows, ms[k]);
    }
  }
}
