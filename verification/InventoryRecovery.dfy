/** The inventory recovery script: the three phases as they loop over the tables and update them. */
module InventoryRecovery {
  import opened Options
  import opened Columns
  import opened Units
  import opened Materials
  import opened Inventory
  import opened InventoryLaws
  import opened InventoryAborted
  import opened InventoryFixedPoint
  import opened InventorySecondRun
  import opened InventoryRows

  datatype Outcome =
    | DryRun(reported: seq<RecomputePlan>)
    | Aborted
    | Complete
    | VerificationFailed(stillDrifting: nat)

  class Ledger {
    var materials: seq<Material>
    var batches: seq<Batch>

    constructor (ms: seq<Material>, bs: seq<Batch>)
      ensures materials == ms && batches == bs
    {
      materials, batches := ms, bs;
    }

    ghost predicate Valid()
      reads this
    {
      IsLedger(materials, batches)
    }

    method FindBackfillNeeded(venue: nat) returns (plans: seq<BackfillPlan>)
      requires UniqueMaterials(materials)
      ensures plans == Backfills(materials, batches, venue)
      ensures forall m :: m in materials ==>
                BackfillFor(plans, m.id) == if LacksBatches(m, batches, venue) then Some(BackfillPlan(m.id, m.unit, m.stock, m.cost)) else None
    {
      forall m | m in materials
        ensures BackfillFor(Backfills(materials, batches, venue), m.id)
             == if LacksBatches(m, batches, venue) then Some(BackfillPlan(m.id, m.unit, m.stock, m.cost)) else None
      {
        BackfillForMaterial(materials, batches, venue, m);
      }
      plans := Backfills(materials, batches, venue);
    }

    method FindBatchUnitMismatches(venue: nat) returns (plans: seq<NormalizePlan>)
      requires HaveMaterials(materials, batches)
      ensures plans == Mismatches(materials, batches, venue)
    {
      plans := [];
      for i := 0 to |batches|
        invariant plans == Mismatches(materials, batches[..i], venue)
      {
        var b := batches[i];
        assert batches[..i + 1][..i] == batches[..i];
        if b.venue != venue || !b.active {
          continue;
        }
        var unit := MaterialOf(materials, b.material).unit;
        if b.unit == unit {
          continue;
        }
        if !AreCompatible(b.unit, unit) {
          continue;
        }
        plans := plans + [NormalizeOf(b, unit)];
      }
      assert batches[..|batches|] == batches;
    }

    /** The inner loop of phase 3: the stock that the batches of one material add up to. */
    method SumShares(m: Material, normalizes: seq<NormalizePlan>) returns (after: real)
      ensures after == SharesOf(batches, m, normalizes)
    {
      after := 0.0;
      for i := 0 to |batches|
        invariant after == SharesOf(batches[..i], m, normalizes)
      {
        var b := batches[i];
        assert batches[..i + 1][..i] == batches[..i];
        if b.material == m.id && b.active {
          var simulated := NormalizeFor(normalizes, b.id);
          var remaining := if simulated.Some? then simulated.value.remainingAfter else b.remaining;
          var unit := if simulated.Some? then simulated.value.toUnit else b.unit;
          if unit == m.unit {
            after := after + remaining;
          } else if AreCompatible(unit, m.unit) {
            after := after + Convert(remaining, unit, m.unit);
          }
        }
      }
      assert batches[..|batches|] == batches;
    }

    method FindCurrentStockDrift(venue: nat, backfills: seq<BackfillPlan>, normalizes: seq<NormalizePlan>) returns (plans: seq<RecomputePlan>)
      ensures plans == Drift(materials, batches, venue, backfills, normalizes)
    {
      plans := [];
      for i := 0 to |materials|
        invariant plans == Drift(materials[..i], batches, venue, backfills, normalizes)
      {
        var m := materials[i];
        assert materials[..i + 1][..i] == materials[..i];
        if IsLive(m, venue) {
          var after := SumShares(m, normalizes);
          var backfill := BackfillFor(backfills, m.id);
          if backfill.Some? {
            after := after + backfill.value.stock;
          }
          if after != m.stock {
            plans := plans + [RecomputePlan(m.id, m.stock, after, after - m.stock)];
          }
        }
      }
      assert materials[..|materials|] == materials;
    }

    method ExecuteBackfill(plans: seq<BackfillPlan>, venue: nat)
      modifies this
      ensures batches == AfterBackfill(old(batches), plans, venue) && materials == old(materials)
    {
      for i := 0 to |plans|
        invariant batches == AfterBackfill(old(batches), plans[..i], venue) && materials == old(materials)
      {
        assert plans[..i + 1][..i] == plans[..i];
        batches := batches + [NewBatch(FreshId(batches), plans[i], venue)];
      }
      assert plans[..|plans|] == plans;
    }

    /** The updates stop where a cost is not finite, since its write fails. */
    method ExecuteBatchNormalize(plans: seq<NormalizePlan>) returns (finished: bool)
      modifies this
      ensures finished <==> Writable(plans) == |plans|
      ensures batches == AfterNormalize(old(batches), plans[..Writable(plans)]) && materials == old(materials)
    {
      for i := 0 to |plans|
        invariant Writable(plans[..i]) == i
        invariant batches == AfterNormalize(old(batches), plans[..i]) && materials == old(materials)
      {
        assert plans[..i + 1][..i] == plans[..i];
        if plans[i].costAfter.NotFinite? {
          WritableIs(plans, i);
          return false;
        }
        batches := UpdateBatch(batches, plans[i]);
      }
      assert plans[..|plans|] == plans;
      finished := true;
    }

    method ExecuteRecompute(plans: seq<RecomputePlan>)
      modifies this
      ensures materials == AfterRecompute(old(materials), plans) && batches == old(batches)
    {
      for i := 0 to |plans|
        invariant materials == AfterRecompute(old(materials), plans[..i]) && batches == old(batches)
      {
        assert plans[..i + 1][..i] == plans[..i];
        materials := UpdateStock(materials, plans[i]);
      }
      assert plans[..|plans|] == plans;
    }

    /**
     The whole run.  A dry run reports the simulated drift and writes nothing; an execution applies
     the phases in order and then looks for drift once more, unless a write of phase 2 stops it.
     */
    method Run(venue: nat, dryRun: bool) returns (outcome: Outcome)
      requires Valid()
      modifies this
      ensures Valid()
      ensures dryRun ==>
                && materials == old(materials) && batches == old(batches)
                && outcome == DryRun(Drift(materials, batches, venue, Backfills(materials, batches, venue), Mismatches(materials, batches, venue)))
      ensures !dryRun ==> AddsStock(old(materials), old(batches), venue, batches)
      ensures !dryRun && outcome != Aborted ==>
                && KeepsOrRewrites(old(materials), old(batches), venue, batches)
                && Recomputes(old(materials), venue, batches, materials)
      ensures !dryRun ==> (outcome == Aborted <==> !NoneSpoilsCost(old(materials), old(batches), venue))
      ensures outcome == Aborted ==> materials == old(materials) && batches == Interrupted(old(materials), old(batches), venue)
      ensures !dryRun && outcome != Aborted ==>
                && batches == Repaired(old(materials), old(batches), venue)
                && materials == Recovered(old(materials), old(batches), venue)
                && (outcome == Complete <==> forall m :: m in old(materials) && IsLive(m, venue) ==> Fits(ForeignShares(old(batches), m, venue), MILLI))
                && (outcome == Complete || outcome == VerificationFailed(|Drift(materials, batches, venue, [], [])|))
      ensures !dryRun && outcome != Aborted && (forall m :: m in old(materials) && IsLive(m, venue) ==> EachForeignFits(old(batches), m, venue)) ==>
                outcome == Complete
      ensures !dryRun && outcome != Aborted && BatchesAtHome(old(materials), old(batches), venue) ==> outcome == Complete
    {
      var backfills := FindBackfillNeeded(venue);
      var mismatches := FindBatchUnitMismatches(venue);
      if dryRun {
        var reported := FindCurrentStockDrift(venue, backfills, mismatches);
        return DryRun(reported);
      }
      AbortsIff(materials, batches, venue);
      BackfilledRows(materials, batches, venue);
      ExecuteBackfill(backfills, venue);
      var finished := ExecuteBatchNormalize(mismatches);
      if !finished {
        InterruptedKeepsLedger(old(materials), old(batches), venue);
        return Aborted;
      }
      assert mismatches[..|mismatches|] == mismatches;
      outcome := Recompute(venue);
      OldRows(old(materials), old(batches), venue);
      RecomputedStocks(old(materials), old(batches), venue);
      RecoveryKeepsLedger(old(materials), old(batches), venue);
      VerificationPassesIff(old(materials), old(batches), venue);
      if forall m :: m in old(materials) && IsLive(m, venue) ==> EachForeignFits(old(batches), m, venue) {
        VerificationPassesWhenEachFits(old(materials), old(batches), venue);
      }
      if BatchesAtHome(old(materials), old(batches), venue) {
        AtHomeReachesFixedPoint(old(materials), old(batches), venue);
      }
    }

    /** Phase 3 of an execution, and the verification. */
    method Recompute(venue: nat) returns (outcome: Outcome)
      modifies this
      ensures batches == old(batches)
      ensures materials == AfterRecompute(old(materials), Drift(old(materials), batches, venue, [], []))
      ensures var left := Drift(materials, batches, venue, [], []);
              outcome == if left == [] then Complete else VerificationFailed(|left|)
    {
      var drift := FindCurrentStockDrift(venue, [], []);
      ExecuteRecompute(drift);
      var finalDrift := FindCurrentStockDrift(venue, [], []);
      outcome := if |finalDrift| != 0 then VerificationFailed(|finalDrift|) else Complete;
    }
  }
}
