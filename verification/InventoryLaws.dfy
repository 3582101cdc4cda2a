/**
 Laws of the inventory recovery: what the dry run reports against what an execution finds, value
 conservation, and the fixed point an executed recovery reaches.
 */
module InventoryLaws {
  import opened Options
  import opened Columns
  import opened Materials
  import opened Inventory

  // ----- Which plan belongs to which row -----

  /** Each batch that needs it has its own plan, and no other batch has one. */
  lemma {:induction false} MismatchFor(ms: seq<Material>, bs: seq<Batch>, venue: nat, b: Batch)
    requires UniqueBatches(bs) && HaveMaterials(ms, bs)
    requires b in bs
    ensures var m := MaterialOf(ms, b.material);
            NormalizeFor(Mismatches(ms, bs, venue), b.id) == if NeedsNormalizing(b, m, venue) then Some(NormalizeOf(b, m.unit)) else None
    decreases |bs|
  {
    var n := |bs| - 1;
    var rest := Mismatches(ms, bs[..n], venue);
    assert rest + [] == rest;
    if b == bs[n] {
      NoMismatchFor(ms, bs[..n], venue, b.id);
      assert Mismatches(ms, bs, venue)[..|rest|] == rest;
    } else {
      var k :| 0 <= k < |bs| && bs[k] == b;
      assert b == bs[..n][k] && b.id != bs[n].id;
      MismatchFor(ms, bs[..n], venue, b);
      assert Mismatches(ms, bs, venue)[..|rest|] == rest;
    }
  }

  lemma {:induction false} NoMismatchFor(ms: seq<Material>, bs: seq<Batch>, venue: nat, id: nat)
    requires HaveMaterials(ms, bs)
    requires forall b :: b in bs ==> b.id != id
    ensures NormalizeFor(Mismatches(ms, bs, venue), id) == None
    decreases |bs|
  {
    if bs == [] {
    } else {
      var n := |bs| - 1;
      var rest := Mismatches(ms, bs[..n], venue);
      assert rest + [] == rest;
      NoMismatchFor(ms, bs[..n], venue, id);
      assert Mismatches(ms, bs, venue)[..|rest|] == rest;
    }
  }

  /** A live material with stock, and no active batch with something left. */
  ghost predicate LacksBatches(m: Material, bs: seq<Batch>, venue: nat) {
    && m.venue == venue && m.active && !m.deleted && m.stock > 0.0
    && forall b :: b in bs && b.material == m.id && b.active ==> b.remaining <= 0.0
  }

  /** Such a material has its own plan, with its stock, unit and cost; no other material has one. */
  lemma {:induction false} BackfillForMaterial(ms: seq<Material>, bs: seq<Batch>, venue: nat, m: Material)
    requires UniqueMaterials(ms) && m in ms
    ensures LacksBatches(m, bs, venue) <==> NeedsBackfill(m, bs, venue)
    ensures BackfillFor(Backfills(ms, bs, venue), m.id)
         == if LacksBatches(m, bs, venue) then Some(BackfillPlan(m.id, m.unit, m.stock, m.cost)) else None
    decreases |ms|
  {
    var n := |ms| - 1;
    var rest := Backfills(ms[..n], bs, venue);
    assert rest + [] == rest;
    assert Backfills(ms, bs, venue)[..|rest|] == rest;
    if m == ms[n] {
      NoBackfillFor(ms[..n], bs, venue, m.id);
    } else {
      var k :| 0 <= k < |ms| && ms[k] == m;
      assert m == ms[..n][k] && m.id != ms[n].id;
      BackfillForMaterial(ms[..n], bs, venue, m);
    }
  }

  lemma {:induction false} NoBackfillFor(ms: seq<Material>, bs: seq<Batch>, venue: nat, id: nat)
    requires forall m :: m in ms ==> m.id != id
    ensures BackfillFor(Backfills(ms, bs, venue), id) == None
    decreases |ms|
  {
    if ms == [] {
    } else {
      var n := |ms| - 1;
      var rest := Backfills(ms[..n], bs, venue);
      assert rest + [] == rest;
      NoBackfillFor(ms[..n], bs, venue, id);
      assert Backfills(ms, bs, venue)[..|rest|] == rest;
    }
  }

  lemma {:induction false} RecomputeForMaterial(ms: seq<Material>, bs: seq<Batch>, venue: nat, backfills: seq<BackfillPlan>, normalizes: seq<NormalizePlan>, m: Material)
    requires UniqueMaterials(ms) && m in ms
    ensures var after := StockAfter(bs, m, backfills, normalizes);
            RecomputeFor(Drift(ms, bs, venue, backfills, normalizes), m.id)
            == if IsLive(m, venue) && after != m.stock then Some(RecomputeOf(m, after)) else None
    decreases |ms|
  {
    var n := |ms| - 1;
    var rest := Drift(ms[..n], bs, venue, backfills, normalizes);
    assert rest + [] == rest;
    assert Drift(ms, bs, venue, backfills, normalizes)[..|rest|] == rest;
    if m == ms[n] {
      NoRecomputeFor(ms[..n], bs, venue, backfills, normalizes, m.id);
    } else {
      var k :| 0 <= k < |ms| && ms[k] == m;
      assert m == ms[..n][k] && m.id != ms[n].id;
      RecomputeForMaterial(ms[..n], bs, venue, backfills, normalizes, m);
    }
  }

  lemma {:induction false} NoRecomputeFor(ms: seq<Material>, bs: seq<Batch>, venue: nat, backfills: seq<BackfillPlan>, normalizes: seq<NormalizePlan>, id: nat)
    requires forall m :: m in ms ==> m.id != id
    ensures RecomputeFor(Drift(ms, bs, venue, backfills, normalizes), id) == None
    decreases |ms|
  {
    if ms == [] {
    } else {
      var n := |ms| - 1;
      var rest := Drift(ms[..n], bs, venue, backfills, normalizes);
      assert rest + [] == rest;
      NoRecomputeFor(ms[..n], bs, venue, backfills, normalizes, id);
      assert Drift(ms, bs, venue, backfills, normalizes)[..|rest|] == rest;
    }
  }

  // ----- What a run of updates leaves in a row -----

  function NormalizedRow(b: Batch, normalizes: seq<NormalizePlan>): Batch {
    match NormalizeFor(normalizes, b.id)
    case Some(p) => Normalized(b, p)
    case None => b
  }

  lemma {:induction false} AfterNormalizeRow(bs: seq<Batch>, normalizes: seq<NormalizePlan>)
    ensures |AfterNormalize(bs, normalizes)| == |bs|
    ensures forall k :: 0 <= k < |bs| ==> AfterNormalize(bs, normalizes)[k] == NormalizedRow(bs[k], normalizes)
    decreases |normalizes|
  {
    if normalizes == [] {
    } else {
      AfterNormalizeRow(bs, normalizes[..|normalizes| - 1]);
    }
  }

  function RecomputedRow(m: Material, plans: seq<RecomputePlan>): Material {
    match RecomputeFor(plans, m.id)
    case Some(p) => m.(stock := Stored(p.after, MILLI))
    case None => m
  }

  lemma {:induction false} AfterRecomputeRow(ms: seq<Material>, plans: seq<RecomputePlan>)
    ensures |AfterRecompute(ms, plans)| == |ms|
    ensures forall k :: 0 <= k < |ms| ==> AfterRecompute(ms, plans)[k] == RecomputedRow(ms[k], plans)
    decreases |plans|
  {
    if plans == [] {
    } else {
      AfterRecomputeRow(ms, plans[..|plans| - 1]);
    }
  }

  // ----- Phases 1 and 2: simulated against executed -----

  /** What storing the converted quantity of one batch adds to it. */
  function RoundingOf(b: Batch, m: Material, normalizes: seq<NormalizePlan>): real {
    if b.material != m.id || !b.active then 0.0
    else
      match NormalizeFor(normalizes, b.id)
      case Some(p) => Stored(p.remainingAfter, MILLI) - p.remainingAfter
      case None => 0.0
  }

  /** What rounding adds to the stock of a material when the pending normalisations are stored. */
  function Rounding(bs: seq<Batch>, m: Material, normalizes: seq<NormalizePlan>): real {
    if bs == [] then 0.0
    else Rounding(bs[..|bs| - 1], m, normalizes) + RoundingOf(bs[|bs| - 1], m, normalizes)
  }

  lemma {:induction false} SharesAfterNormalize(bs: seq<Batch>, rows: seq<Batch>, m: Material, normalizes: seq<NormalizePlan>)
    requires |rows| == |bs|
    requires forall k :: 0 <= k < |bs| ==> Share(rows[k], m, []) == Share(bs[k], m, normalizes) + RoundingOf(bs[k], m, normalizes)
    ensures SharesOf(rows, m, []) == SharesOf(bs, m, normalizes) + Rounding(bs, m, normalizes)
    decreases |bs|
  {
    if bs == [] {
    } else {
      SharesAfterNormalize(bs[..|bs| - 1], rows[..|bs| - 1], m, normalizes);
    }
  }

  ghost predicate OnePlanEach(plans: seq<BackfillPlan>) {
    forall i, j :: 0 <= i < j < |plans| ==> plans[i].material != plans[j].material
  }

  lemma {:induction false} BackfillForMeaning(plans: seq<BackfillPlan>, id: nat)
    ensures BackfillFor(plans, id) == None <==> forall p :: p in plans ==> p.material != id
    ensures var p := BackfillFor(plans, id);
            p.Some? ==> p.value in plans && p.value.material == id
    decreases |plans|
  {
    if plans == [] {
    } else {
      var n := |plans| - 1;
      BackfillForMeaning(plans[..n], id);
      assert plans == plans[..n] + [plans[n]];
    }
  }

  /** Plans for batches of the table only. */
  ghost predicate PlansWithin(bs: seq<Batch>, normalizes: seq<NormalizePlan>) {
    forall id :: (forall b :: b in bs ==> b.id < id) ==> NormalizeFor(normalizes, id) == None
  }

  lemma {:induction false} AfterBackfillKeeps(bs: seq<Batch>, plans: seq<BackfillPlan>, venue: nat)
    ensures bs <= AfterBackfill(bs, plans, venue)
    decreases |plans|
  {
    if plans == [] {
    } else {
      AfterBackfillKeeps(bs, plans[..|plans| - 1], venue);
    }
  }

  function BackfillShare(m: Material, plans: seq<BackfillPlan>): real {
    match BackfillFor(plans, m.id)
    case Some(p) => InUnit(Stored(p.stock, MILLI), p.unit, m.unit)
    case None => 0.0
  }

  lemma FreshIdHasNoPlan(bs: seq<Batch>, before: seq<Batch>, normalizes: seq<NormalizePlan>)
    requires PlansWithin(bs, normalizes) && bs <= before
    ensures NormalizeFor(normalizes, FreshId(before)) == None
  {
    forall b | b in bs ensures b.id < FreshId(before) {
      assert b in before;
    }
  }

  lemma {:induction false} SharesAfterBackfill(bs: seq<Batch>, plans: seq<BackfillPlan>, venue: nat, m: Material, normalizes: seq<NormalizePlan>)
    requires OnePlanEach(plans) && PlansWithin(bs, normalizes)
    ensures SharesOf(AfterBackfill(bs, plans, venue), m, normalizes)
         == SharesOf(bs, m, normalizes) + BackfillShare(m, plans)
    ensures Rounding(AfterBackfill(bs, plans, venue), m, normalizes) == Rounding(bs, m, normalizes)
    decreases |plans|
  {
    if plans == [] {
    } else {
      var n := |plans| - 1;
      var before := AfterBackfill(bs, plans[..n], venue);
      var added := NewBatch(FreshId(before), plans[n], venue);
      SharesAfterBackfill(bs, plans[..n], venue, m, normalizes);
      AfterBackfillKeeps(bs, plans[..n], venue);
      FreshIdHasNoPlan(bs, before, normalizes);
      BackfillForMeaning(plans[..n], m.id);
      assert (before + [added])[..|before|] == before;
    }
  }

  lemma {:induction false} BackfillsOnePlanEach(ms: seq<Material>, bs: seq<Batch>, venue: nat)
    requires UniqueMaterials(ms)
    ensures OnePlanEach(Backfills(ms, bs, venue))
    ensures forall p :: p in Backfills(ms, bs, venue) ==> exists k :: 0 <= k < |ms| && ms[k].id == p.material
    decreases |ms|
  {
    if ms == [] {
    } else {
      var n := |ms| - 1;
      BackfillsOnePlanEach(ms[..n], bs, venue);
      forall p | p in Backfills(ms[..n], bs, venue) ensures p.material != ms[n].id && exists k :: 0 <= k < |ms| && ms[k].id == p.material {
        var k :| 0 <= k < n && ms[..n][k].id == p.material;
        assert ms[k].id == p.material;
      }
      assert ms[n].id == ms[n].id;
    }
  }

  lemma MismatchesWithin(ms: seq<Material>, bs: seq<Batch>, venue: nat)
    requires HaveMaterials(ms, bs)
    ensures PlansWithin(bs, Mismatches(ms, bs, venue))
  {
    forall id | forall b :: b in bs ==> b.id < id ensures NormalizeFor(Mismatches(ms, bs, venue), id) == None {
      NoMismatchFor(ms, bs, venue, id);
    }
  }

  lemma {:induction false} AfterBackfillRows(bs: seq<Batch>, plans: seq<BackfillPlan>, venue: nat, b: Batch)
    requires b in AfterBackfill(bs, plans, venue)
    ensures b in bs || ((forall c :: c in bs ==> c.id < b.id) && exists p :: p in plans && b == NewBatch(b.id, p, venue))
    decreases |plans|
  {
    if plans == [] {
    } else {
      var n := |plans| - 1;
      var before := AfterBackfill(bs, plans[..n], venue);
      if b in before {
        AfterBackfillRows(bs, plans[..n], venue, b);
      } else {
        AfterBackfillKeeps(bs, plans[..n], venue);
        assert b == NewBatch(FreshId(before), plans[n], venue);
        forall c | c in bs ensures c.id < b.id {
          assert c in before;
        }
      }
    }
  }

  /** The plan of a row after phase 1, if it belongs to a batch of `m`: into the unit of `m`. */
  lemma PlanOfRow(ms: seq<Material>, bs: seq<Batch>, venue: nat, m: Material, row: Batch)
    requires IsLedger(ms, bs) && m in ms && row.material == m.id
    requires row in AfterBackfill(bs, Backfills(ms, bs, venue), venue)
    ensures NormalizeFor(Mismatches(ms, bs, venue), row.id)
         == if row in bs && NeedsNormalizing(row, m, venue) then Some(NormalizeOf(row, m.unit)) else None
  {
    MaterialIsOnly(ms, m);
    if row in bs {
      MismatchFor(ms, bs, venue, row);
    } else {
      AfterBackfillRows(bs, Backfills(ms, bs, venue), venue, row);
      MismatchesWithin(ms, bs, venue);
    }
  }

  /** The stock that an execution finds after phases 1 and 2: the simulated stock, and the rounding of what was stored. */
  lemma ExecutedStock(ms: seq<Material>, bs: seq<Batch>, venue: nat, m: Material)
    requires IsLedger(ms, bs) && m in ms
    ensures StockAfter(Repaired(ms, bs, venue), m, [], [])
         == StockAfter(bs, m, Backfills(ms, bs, venue), Mismatches(ms, bs, venue)) + Rounding(bs, m, Mismatches(ms, bs, venue))
  {
    var backfills, normalizes := Backfills(ms, bs, venue), Mismatches(ms, bs, venue);
    var filled := AfterBackfill(bs, backfills, venue);
    var rows := AfterNormalize(filled, normalizes);
    AfterNormalizeRow(filled, normalizes);
    forall k | 0 <= k < |filled| ensures Share(rows[k], m, []) == Share(filled[k], m, normalizes) + RoundingOf(filled[k], m, normalizes) {
      if filled[k].material == m.id {
        PlanOfRow(ms, bs, venue, m, filled[k]);
      }
    }
    SharesAfterNormalize(filled, rows, m, normalizes);
    BackfillsOnePlanEach(ms, bs, venue);
    MismatchesWithin(ms, bs, venue);
    SharesAfterBackfill(bs, backfills, venue, m, normalizes);
    BackfillForMaterial(ms, bs, venue, m);
    StoredKeepsIffFits(m.stock, MILLI);
  }

  function PendingFor(bs: seq<Batch>, m: Material, normalizes: seq<NormalizePlan>): nat {
    if bs == [] then 0
    else
      var b := bs[|bs| - 1];
      PendingFor(bs[..|bs| - 1], m, normalizes)
      + if b.material == m.id && b.active && NormalizeFor(normalizes, b.id).Some? then 1 else 0
  }

  /** Half a unit of the third decimal per pending batch of the material. */
  lemma {:induction false} RoundingIsBounded(bs: seq<Batch>, m: Material, normalizes: seq<NormalizePlan>)
    ensures Abs(Rounding(bs, m, normalizes)) <= 0.0005 * PendingFor(bs, m, normalizes) as real
    decreases |bs|
  {
    if bs == [] {
    } else {
      var b := bs[|bs| - 1];
      RoundingIsBounded(bs[..|bs| - 1], m, normalizes);
      if b.material == m.id && b.active && NormalizeFor(normalizes, b.id).Some? {
        StoredError(NormalizeFor(normalizes, b.id).value.remainingAfter, MILLI);
      }
    }
  }

  // ----- The dry run -----

  lemma {:induction false} SameStockSameDrift(ms: seq<Material>, bs: seq<Batch>, bs': seq<Batch>, venue: nat,
      backfills: seq<BackfillPlan>, normalizes: seq<NormalizePlan>)
    requires forall m :: m in ms && IsLive(m, venue) ==> StockAfter(bs, m, backfills, normalizes) == StockAfter(bs', m, [], [])
    ensures Drift(ms, bs, venue, backfills, normalizes) == Drift(ms, bs', venue, [], [])
    decreases |ms|
  {
    if ms == [] {
    } else {
      SameStockSameDrift(ms[..|ms| - 1], bs, bs', venue, backfills, normalizes);
      assert ms[|ms| - 1] in ms;
    }
  }

  /**
   The plan a dry run reports is the plan an execution then finds iff, for every live material,
   the rounding of its stored normalisations adds up to nothing.
   */
  lemma DryRunEqualsExecutionIff(ms: seq<Material>, bs: seq<Batch>, venue: nat)
    requires IsLedger(ms, bs)
    ensures var backfills, normalizes := Backfills(ms, bs, venue), Mismatches(ms, bs, venue);
            Drift(ms, bs, venue, backfills, normalizes) == Drift(ms, Repaired(ms, bs, venue), venue, [], [])
            <==> forall m :: m in ms && IsLive(m, venue) ==> Rounding(bs, m, normalizes) == 0.0
  {
    var backfills, normalizes := Backfills(ms, bs, venue), Mismatches(ms, bs, venue);
    var after := Repaired(ms, bs, venue);
    var reported, found := Drift(ms, bs, venue, backfills, normalizes), Drift(ms, after, venue, [], []);
    if reported == found {
      forall m | m in ms && IsLive(m, venue) ensures Rounding(bs, m, normalizes) == 0.0 {
        ExecutedStock(ms, bs, venue, m);
        RecomputeForMaterial(ms, bs, venue, backfills, normalizes, m);
        RecomputeForMaterial(ms, after, venue, [], [], m);
      }
    }
    if forall m :: m in ms && IsLive(m, venue) ==> Rounding(bs, m, normalizes) == 0.0 {
      forall m | m in ms && IsLive(m, venue) ensures StockAfter(bs, m, backfills, normalizes) == StockAfter(after, m, [], []) {
        ExecutedStock(ms, bs, venue, m);
      }
      SameStockSameDrift(ms, bs, after, venue, backfills, normalizes);
    }
  }

  lemma {:induction false} NoRoundingWhenFitting(bs: seq<Batch>, m: Material, normalizes: seq<NormalizePlan>)
    requires forall b :: b in bs && NormalizeFor(normalizes, b.id).Some? ==> Fits(NormalizeFor(normalizes, b.id).value.remainingAfter, MILLI)
    ensures Rounding(bs, m, normalizes) == 0.0
    decreases |bs|
  {
    if bs == [] {
    } else {
      var b := bs[|bs| - 1];
      assert b in bs;
      NoRoundingWhenFitting(bs[..|bs| - 1], m, normalizes);
      if NormalizeFor(normalizes, b.id).Some? {
        StoredKeepsIffFits(NormalizeFor(normalizes, b.id).value.remainingAfter, MILLI);
      }
    }
  }

  /** When every pending quantity has at most three decimals, the dry run is the execution. */
  lemma DryRunEqualsExecution(ms: seq<Material>, bs: seq<Batch>, venue: nat)
    requires IsLedger(ms, bs)
    requires forall b :: b in bs && NormalizeFor(Mismatches(ms, bs, venue), b.id).Some?
               ==> Fits(NormalizeFor(Mismatches(ms, bs, venue), b.id).value.remainingAfter, MILLI)
    ensures Drift(ms, bs, venue, Backfills(ms, bs, venue), Mismatches(ms, bs, venue))
         == Drift(ms, Repaired(ms, bs, venue), venue, [], [])
  {
    forall m | m in ms && IsLive(m, venue) ensures Rounding(bs, m, Mismatches(ms, bs, venue)) == 0.0 {
      NoRoundingWhenFitting(bs, m, Mismatches(ms, bs, venue));
    }
    DryRunEqualsExecutionIff(ms, bs, venue);
  }
}
