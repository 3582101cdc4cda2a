/**
 Recoveries that stop half way: a batch whose converted initial quantity is zero has no finite cost
 per unit, and the write of such a cost fails.
 */
module InventoryAborted {
  import opened Options
  import opened Columns
  import opened Units
  import opened Materials
  import opened Inventory
  import opened InventoryLaws
  import opened InventoryFixedPoint

  /** How many plans are written before the first one whose cost is not finite. */
  function Writable(plans: seq<NormalizePlan>): (n: nat)
    ensures n <= |plans| && forall k :: 0 <= k < n ==> plans[k].costAfter.Finite?
    ensures n < |plans| ==> plans[n].costAfter.NotFinite?
  {
    if plans == [] then 0
    else
      var last := |plans| - 1;
      var n := Writable(plans[..last]);
      if n < last || plans[last].costAfter.NotFinite? then n else last + 1
  }

  lemma WritableIs(plans: seq<NormalizePlan>, n: nat)
    requires n < |plans| && plans[n].costAfter.NotFinite? && Writable(plans[..n]) == n
    ensures Writable(plans) == n
  {
    assert forall k :: 0 <= k < n ==> plans[k] == plans[..n][k];
  }

  /** The batches that a run leaves which stops at the first such plan. */
  function Interrupted(ms: seq<Material>, bs: seq<Batch>, venue: nat): seq<Batch>
    requires HaveMaterials(ms, bs)
  {
    var plans := Mismatches(ms, bs, venue);
    AfterNormalize(AfterBackfill(bs, Backfills(ms, bs, venue), venue), plans[..Writable(plans)])
  }

  predicate SpoilsCost(b: Batch, m: Material, venue: nat) {
    NeedsNormalizing(b, m, venue) && (b.cost.NotFinite? || Convert(b.initial, b.unit, m.unit) == 0.0)
  }

  ghost predicate NoneSpoilsCost(ms: seq<Material>, bs: seq<Batch>, venue: nat)
    requires HaveMaterials(ms, bs)
  {
    forall b :: b in bs ==> !SpoilsCost(b, MaterialOf(ms, b.material), venue)
  }

  function PlanOf(b: Batch, m: Material, venue: nat): Option<NormalizePlan> {
    if NeedsNormalizing(b, m, venue) then Some(NormalizeOf(b, m.unit)) else None
  }

  /** Every plan is for a batch that needs it. */
  lemma {:induction false} MismatchOrigin(ms: seq<Material>, bs: seq<Batch>, venue: nat, p: NormalizePlan)
    requires HaveMaterials(ms, bs) && p in Mismatches(ms, bs, venue)
    ensures exists b :: b in bs && PlanOf(b, MaterialOf(ms, b.material), venue) == Some(p)
    decreases |bs|
  {
    var n := |bs| - 1;
    if p !in Mismatches(ms, bs[..n], venue) {
      assert bs[n] in bs;
    } else {
      MismatchOrigin(ms, bs[..n], venue, p);
      var b :| b in bs[..n] && PlanOf(b, MaterialOf(ms, b.material), venue) == Some(p);
      assert b in bs;
    }
  }

  lemma PlanIsOwn(ms: seq<Material>, bs: seq<Batch>, venue: nat, p: NormalizePlan, b: Batch)
    requires UniqueBatches(bs) && HaveMaterials(ms, bs) && b in bs
    requires p in Mismatches(ms, bs, venue) && p.batch == b.id
    ensures PlanOf(b, MaterialOf(ms, b.material), venue) == Some(p)
  {
    MismatchOrigin(ms, bs, venue, p);
    var c :| c in bs && PlanOf(c, MaterialOf(ms, c.material), venue) == Some(p);
    assert c == b;
  }

  lemma {:induction false} NormalizeForIsPlan(plans: seq<NormalizePlan>, id: nat)
    ensures var p := NormalizeFor(plans, id);
            p.Some? ==> p.value in plans && p.value.batch == id
    decreases |plans|
  {
    if plans == [] {
    } else {
      var n := |plans| - 1;
      NormalizeForIsPlan(plans[..n], id);
      assert plans == plans[..n] + [plans[n]];
    }
  }

  /** A batch that spoils its cost has no plan that can be written. */
  lemma SpoiltHasNoPlan(ms: seq<Material>, bs: seq<Batch>, venue: nat, b: Batch, n: nat)
    requires UniqueBatches(bs) && HaveMaterials(ms, bs) && b in bs && SpoilsCost(b, MaterialOf(ms, b.material), venue)
    requires n == Writable(Mismatches(ms, bs, venue))
    ensures NormalizeFor(Mismatches(ms, bs, venue)[..n], b.id) == None
  {
    var plans := Mismatches(ms, bs, venue);
    NormalizeForIsPlan(plans[..n], b.id);
    if NormalizeFor(plans[..n], b.id).Some? {
      PlanIsOwn(ms, bs, venue, NormalizeFor(plans[..n], b.id).value, b);
    }
  }

  /** A run stops half way iff it comes to an active batch of the venue whose converted initial quantity is zero. */
  lemma AbortsIff(ms: seq<Material>, bs: seq<Batch>, venue: nat)
    requires UniqueBatches(bs) && HaveMaterials(ms, bs)
    ensures var plans := Mismatches(ms, bs, venue);
            Writable(plans) < |plans| <==> !NoneSpoilsCost(ms, bs, venue)
  {
    var plans := Mismatches(ms, bs, venue);
    var n := Writable(plans);
    assert plans[..|plans|] == plans;
    if n < |plans| {
      MismatchOrigin(ms, bs, venue, plans[n]);
      var b :| b in bs && PlanOf(b, MaterialOf(ms, b.material), venue) == Some(plans[n]);
      assert SpoilsCost(b, MaterialOf(ms, b.material), venue);
    }
    if b :| b in bs && SpoilsCost(b, MaterialOf(ms, b.material), venue) {
      SpoiltHasNoPlan(ms, bs, venue, b, n);
      MismatchFor(ms, bs, venue, b);
    }
  }

  // ----- What such a run leaves -----

  lemma InterruptedKeepsLedger(ms: seq<Material>, bs: seq<Batch>, venue: nat)
    requires IsLedger(ms, bs)
    ensures IsLedger(ms, Interrupted(ms, bs, venue))
  {
    var plans := Mismatches(ms, bs, venue);
    BackfillsOnePlanEach(ms, bs, venue);
    BackfillsKeepLedger(ms, bs, Backfills(ms, bs, venue), venue);
    NormalizeKeepsLedger(ms, AfterBackfill(bs, Backfills(ms, bs, venue), venue), plans[..Writable(plans)]);
  }

  lemma SpoiltStays(ms: seq<Material>, bs: seq<Batch>, venue: nat, b: Batch)
    requires UniqueBatches(bs) && HaveMaterials(ms, bs) && b in bs && SpoilsCost(b, MaterialOf(ms, b.material), venue)
    ensures b in Interrupted(ms, bs, venue)
  {
    var plans, filled := Mismatches(ms, bs, venue), AfterBackfill(bs, Backfills(ms, bs, venue), venue);
    var n := Writable(plans);
    SpoiltHasNoPlan(ms, bs, venue, b, n);
    AfterBackfillKeeps(bs, Backfills(ms, bs, venue), venue);
    AfterNormalizeRow(filled, plans[..n]);
    assert b in filled;
    var k :| 0 <= k < |filled| && filled[k] == b;
    assert Interrupted(ms, bs, venue)[k] == b;
  }

  /** The batch that stopped a run is as it was, so every further run stops as well. */
  lemma AbortsAgain(ms: seq<Material>, bs: seq<Batch>, venue: nat)
    requires IsLedger(ms, bs) && !NoneSpoilsCost(ms, bs, venue)
    ensures HaveMaterials(ms, Interrupted(ms, bs, venue)) && !NoneSpoilsCost(ms, Interrupted(ms, bs, venue), venue)
  {
    InterruptedKeepsLedger(ms, bs, venue);
    var b :| b in bs && SpoilsCost(b, MaterialOf(ms, b.material), venue);
    SpoiltStays(ms, bs, venue, b);
  }
}
