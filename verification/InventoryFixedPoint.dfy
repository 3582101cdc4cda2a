/** After an executed inventory recovery: when the final verification passes, and what is left to do. */
module InventoryFixedPoint {
  import opened Options
  import opened Columns
  import opened Units
  import opened Materials
  import opened Inventory
  import opened InventoryLaws

  // ----- The materials after phase 3 -----

  function Recovered(ms: seq<Material>, bs: seq<Batch>, venue: nat): seq<Material>
    requires HaveMaterials(ms, bs)
  {
    AfterRecompute(ms, Drift(ms, Repaired(ms, bs, venue), venue, [], []))
  }

  function RecoveredRow(m: Material, rows: seq<Batch>, venue: nat): Material {
    if IsLive(m, venue) && SharesOf(rows, m, []) != m.stock then m.(stock := Stored(SharesOf(rows, m, []), MILLI)) else m
  }

  lemma {:induction false} SharesIgnoreStock(bs: seq<Batch>, m: Material, m': Material, normalizes: seq<NormalizePlan>)
    requires m' == m.(stock := m'.stock)
    ensures SharesOf(bs, m', normalizes) == SharesOf(bs, m, normalizes)
    decreases |bs|
  {
    if bs == [] {
    } else {
      SharesIgnoreStock(bs[..|bs| - 1], m, m', normalizes);
    }
  }

  lemma RecoveredRows(ms: seq<Material>, bs: seq<Batch>, venue: nat)
    requires IsLedger(ms, bs)
    ensures |Recovered(ms, bs, venue)| == |ms|
    ensures forall k :: 0 <= k < |ms| ==> Recovered(ms, bs, venue)[k] == RecoveredRow(ms[k], Repaired(ms, bs, venue), venue)
  {
    var rows := Repaired(ms, bs, venue);
    var drift := Drift(ms, rows, venue, [], []);
    AfterRecomputeRow(ms, drift);
    forall k | 0 <= k < |ms| ensures AfterRecompute(ms, drift)[k] == RecoveredRow(ms[k], rows, venue) {
      RecomputeForMaterial(ms, rows, venue, [], [], ms[k]);
    }
  }

  lemma {:induction false} NoDriftIff(ms: seq<Material>, bs: seq<Batch>, venue: nat)
    ensures Drift(ms, bs, venue, [], []) == []
       <==> forall m :: m in ms && IsLive(m, venue) ==> SharesOf(bs, m, []) == m.stock
    decreases |ms|
  {
    if ms == [] {
    } else {
      var n := |ms| - 1;
      NoDriftIff(ms[..n], bs, venue);
      assert ms == ms[..n] + [ms[n]];
    }
  }

  /** A recovered row of a live material agrees with its batches iff their sum has at most three decimals. */
  lemma RecoveredRowAgreesIff(m: Material, rows: seq<Batch>, venue: nat)
    requires Fits(m.stock, MILLI)
    ensures var m' := RecoveredRow(m, rows, venue);
            && SharesOf(rows, m', []) == SharesOf(rows, m, [])
            && (IsLive(m', venue) <==> IsLive(m, venue))
            && (IsLive(m, venue) ==> (SharesOf(rows, m', []) == m'.stock <==> Fits(SharesOf(rows, m, []), MILLI)))
  {
    SharesIgnoreStock(rows, m, RecoveredRow(m, rows, venue), []);
    StoredKeepsIffFits(SharesOf(rows, m, []), MILLI);
  }

  /** The final verification finds no drift iff every summed stock has at most three decimals. */
  lemma NoDriftLeftIff(ms: seq<Material>, bs: seq<Batch>, venue: nat)
    requires IsLedger(ms, bs)
    ensures Drift(Recovered(ms, bs, venue), Repaired(ms, bs, venue), venue, [], []) == []
       <==> forall m :: m in ms && IsLive(m, venue) ==> Fits(SharesOf(Repaired(ms, bs, venue), m, []), MILLI)
  {
    var rows, ms' := Repaired(ms, bs, venue), Recovered(ms, bs, venue);
    RecoveredRows(ms, bs, venue);
    NoDriftIff(ms', rows, venue);
    forall k | 0 <= k < |ms|
      ensures ms[k] in ms && ms'[k] in ms' && (IsLive(ms'[k], venue) <==> IsLive(ms[k], venue))
      ensures IsLive(ms[k], venue) ==> (SharesOf(rows, ms'[k], []) == ms'[k].stock <==> Fits(SharesOf(rows, ms[k], []), MILLI))
    {
      assert ms[k] in ms;
      RecoveredRowAgreesIff(ms[k], rows, venue);
    }
  }

  // ----- Batches booked in another venue -----

  /** An active batch in a convertible unit that normalising passes over, because another venue booked it. */
  predicate IsForeign(b: Batch, m: Material, venue: nat) {
    b.material == m.id && b.active && b.venue != venue && b.unit != m.unit && AreCompatible(b.unit, m.unit)
  }

  function ForeignShare(b: Batch, m: Material, venue: nat): real {
    if IsForeign(b, m, venue) then Convert(b.remaining, b.unit, m.unit) else 0.0
  }

  /** What the batches booked elsewhere add to the stock of a material, converted but never stored. */
  function ForeignShares(bs: seq<Batch>, m: Material, venue: nat): real {
    if bs == [] then 0.0 else ForeignShares(bs[..|bs| - 1], m, venue) + ForeignShare(bs[|bs| - 1], m, venue)
  }

  lemma {:induction false} ForeignAfterBackfill(bs: seq<Batch>, plans: seq<BackfillPlan>, venue: nat, m: Material)
    ensures ForeignShares(AfterBackfill(bs, plans, venue), m, venue) == ForeignShares(bs, m, venue)
    decreases |plans|
  {
    if plans == [] {
    } else {
      var n := |plans| - 1;
      var before := AfterBackfill(bs, plans[..n], venue);
      ForeignAfterBackfill(bs, plans[..n], venue, m);
    }
  }

  lemma {:induction false} ForeignRowByRow(bs: seq<Batch>, rows: seq<Batch>, m: Material, venue: nat)
    requires |rows| == |bs| && forall k :: 0 <= k < |bs| ==> ForeignShare(rows[k], m, venue) == ForeignShare(bs[k], m, venue)
    ensures ForeignShares(rows, m, venue) == ForeignShares(bs, m, venue)
    decreases |bs|
  {
    if bs == [] {
    } else {
      ForeignRowByRow(bs[..|bs| - 1], rows[..|bs| - 1], m, venue);
    }
  }

  lemma ForeignStays(ms: seq<Material>, bs: seq<Batch>, venue: nat, m: Material, row: Batch)
    requires IsLedger(ms, bs) && m in ms && row in AfterBackfill(bs, Backfills(ms, bs, venue), venue)
    ensures ForeignShare(NormalizedRow(row, Mismatches(ms, bs, venue)), m, venue)
         == ForeignShare(row, m, venue)
  {
    if row.material == m.id {
      PlanOfRow(ms, bs, venue, m, row);
      MaterialIsOnly(ms, m);
    }
  }

  /** Phases 1 and 2 leave the batches booked elsewhere as they are. */
  lemma ForeignUnchanged(ms: seq<Material>, bs: seq<Batch>, venue: nat, m: Material)
    requires IsLedger(ms, bs) && m in ms
    ensures ForeignShares(Repaired(ms, bs, venue), m, venue) == ForeignShares(bs, m, venue)
  {
    var filled := AfterBackfill(bs, Backfills(ms, bs, venue), venue);
    AfterNormalizeRow(filled, Mismatches(ms, bs, venue));
    forall k | 0 <= k < |filled|
      ensures ForeignShare(Repaired(ms, bs, venue)[k], m, venue) == ForeignShare(filled[k], m, venue)
    {
      ForeignStays(ms, bs, venue, m, filled[k]);
    }
    ForeignRowByRow(filled, Repaired(ms, bs, venue), m, venue);
    ForeignAfterBackfill(bs, Backfills(ms, bs, venue), venue, m);
  }

  // ----- Batches kept at home -----

  /** No live material of the venue has a batch that another venue booked in a unit to convert. */
  ghost predicate BatchesAtHome(ms: seq<Material>, bs: seq<Batch>, venue: nat) {
    forall m, b :: m in ms && IsLive(m, venue) && b in bs ==> !IsForeign(b, m, venue)
  }

  /** A row that counts in full: same unit, and three decimals at most. */
  predicate CountsAsIs(row: Batch, m: Material) {
    row.material == m.id && row.active && AreCompatible(row.unit, m.unit) ==> row.unit == m.unit && Fits(row.remaining, MILLI)
  }

  /** Where a repaired row comes from. */
  ghost predicate IsOrigin(ms: seq<Material>, bs: seq<Batch>, venue: nat, row: Batch, before: Batch)
    requires HaveMaterials(ms, bs)
  {
    before in AfterBackfill(bs, Backfills(ms, bs, venue), venue) && row == NormalizedRow(before, Mismatches(ms, bs, venue))
  }

  lemma RepairedRow(ms: seq<Material>, bs: seq<Batch>, venue: nat, row: Batch)
    requires IsLedger(ms, bs) && row in Repaired(ms, bs, venue)
    ensures exists before :: IsOrigin(ms, bs, venue, row, before)
  {
    var filled := AfterBackfill(bs, Backfills(ms, bs, venue), venue);
    AfterNormalizeRow(filled, Mismatches(ms, bs, venue));
    var k :| 0 <= k < |Repaired(ms, bs, venue)| && Repaired(ms, bs, venue)[k] == row;
    assert filled[k] in filled && IsOrigin(ms, bs, venue, row, filled[k]);
  }

  /** A backfill is planned in the unit of its material. */
  lemma {:induction false} BackfillUnit(ms: seq<Material>, bs: seq<Batch>, venue: nat, p: BackfillPlan, m: Material)
    requires UniqueMaterials(ms) && m in ms && p in Backfills(ms, bs, venue) && p.material == m.id
    ensures p == BackfillOf(m)
  {
    BackfillForMaterial(ms, bs, venue, m);
    BackfillsOnePlanEach(ms, bs, venue);
    BackfillForMeaning(Backfills(ms, bs, venue), m.id);
  }

  /** After phases 1 and 2 every row counts as it is, unless it is booked elsewhere, and then it was so before. */
  lemma RepairedCounts(ms: seq<Material>, bs: seq<Batch>, venue: nat, m: Material, row: Batch)
    requires IsLedger(ms, bs) && m in ms && row in Repaired(ms, bs, venue)
    ensures CountsAsIs(row, m) || (IsForeign(row, m, venue) && row in bs)
  {
    RepairedRow(ms, bs, venue, row);
    var before :| IsOrigin(ms, bs, venue, row, before);
    if before.material == m.id {
      PlanOfRow(ms, bs, venue, m, before);
      MaterialIsOnly(ms, m);
      if before in bs {
        if NeedsNormalizing(before, m, venue) {
          StoredFits(NormalizeOf(before, m.unit).remainingAfter, MILLI);
        }
      } else {
        AfterBackfillRows(bs, Backfills(ms, bs, venue), venue, before);
        var p :| p in Backfills(ms, bs, venue) && before == NewBatch(before.id, p, venue);
        BackfillUnit(ms, bs, venue, p, m);
        StoredFits(p.stock, MILLI);
      }
    }
  }

  ghost predicate AllCount(rows: seq<Batch>, m: Material, venue: nat) {
    forall row :: row in rows ==> CountsAsIs(row, m) || IsForeign(row, m, venue)
  }

  lemma AllRepairedCount(ms: seq<Material>, bs: seq<Batch>, venue: nat, m: Material)
    requires IsLedger(ms, bs) && m in ms
    ensures AllCount(Repaired(ms, bs, venue), m, venue)
  {
    forall row | row in Repaired(ms, bs, venue) ensures CountsAsIs(row, m) || IsForeign(row, m, venue) {
      RepairedCounts(ms, bs, venue, m, row);
    }
  }

  /** What is not booked elsewhere adds up to three decimals. */
  lemma {:induction false} HomeSharesFit(rows: seq<Batch>, m: Material, venue: nat)
    requires AllCount(rows, m, venue)
    ensures Fits(SharesOf(rows, m, []) - ForeignShares(rows, m, venue), MILLI)
    decreases |rows|
  {
    FitsZero(MILLI);
    if rows == [] {
    } else {
      var n := |rows| - 1;
      var home := Share(rows[n], m, []) - ForeignShare(rows[n], m, venue);
      HomeSharesFit(rows[..n], m, venue);
      assert rows[n] in rows;
      assert Fits(home, MILLI);
      FitsSum(SharesOf(rows[..n], m, []) - ForeignShares(rows[..n], m, venue), home, MILLI);
    }
  }

  lemma CountedStockFitsIff(rows: seq<Batch>, m: Material, venue: nat)
    requires AllCount(rows, m, venue)
    ensures Fits(SharesOf(rows, m, []), MILLI) <==> Fits(ForeignShares(rows, m, venue), MILLI)
  {
    HomeSharesFit(rows, m, venue);
    FitTogether(SharesOf(rows, m, []), ForeignShares(rows, m, venue), MILLI);
  }

  lemma StockFitsIff(ms: seq<Material>, bs: seq<Batch>, venue: nat, m: Material)
    requires IsLedger(ms, bs) && m in ms
    ensures Fits(SharesOf(Repaired(ms, bs, venue), m, []), MILLI)
       <==> Fits(ForeignShares(bs, m, venue), MILLI)
  {
    AllRepairedCount(ms, bs, venue, m);
    CountedStockFitsIff(Repaired(ms, bs, venue), m, venue);
    ForeignUnchanged(ms, bs, venue, m);
  }

  /**
   The final verification passes iff, for every live material, the batches that another venue
   booked in a unit to convert come to at most three decimals.
   */
  lemma VerificationPassesIff(ms: seq<Material>, bs: seq<Batch>, venue: nat)
    requires IsLedger(ms, bs)
    ensures Drift(Recovered(ms, bs, venue), Repaired(ms, bs, venue), venue, [], []) == []
       <==> forall m :: m in ms && IsLive(m, venue) ==> Fits(ForeignShares(bs, m, venue), MILLI)
  {
    NoDriftLeftIff(ms, bs, venue);
    forall m | m in ms
      ensures Fits(SharesOf(Repaired(ms, bs, venue), m, []), MILLI) <==> Fits(ForeignShares(bs, m, venue), MILLI)
    {
      StockFitsIff(ms, bs, venue, m);
    }
  }

  /** Every batch that another venue booked in a unit to convert comes to at most three decimals by itself. */
  ghost predicate EachForeignFits(bs: seq<Batch>, m: Material, venue: nat) {
    forall b :: b in bs ==> Fits(ForeignShare(b, m, venue), MILLI)
  }

  lemma {:induction false} ForeignSumFits(bs: seq<Batch>, m: Material, venue: nat)
    requires EachForeignFits(bs, m, venue)
    ensures Fits(ForeignShares(bs, m, venue), MILLI)
    decreases |bs|
  {
    FitsZero(MILLI);
    if bs == [] {
    } else {
      var n := |bs| - 1;
      assert bs[n] in bs && forall b :: b in bs[..n] ==> b in bs;
      ForeignSumFits(bs[..n], m, venue);
      FitsSum(ForeignShares(bs[..n], m, venue), ForeignShare(bs[n], m, venue), MILLI);
      assert ForeignShares(bs, m, venue) == ForeignShares(bs[..n], m, venue) + ForeignShare(bs[n], m, venue);
    }
  }

  /** What a counted row adds to the final sum has at most three decimals iff what it adds from elsewhere has. */
  lemma SummandFitsIff(ms: seq<Material>, bs: seq<Batch>, venue: nat, m: Material, row: Batch)
    requires IsLedger(ms, bs) && m in ms && row in Repaired(ms, bs, venue)
    ensures IsForeign(row, m, venue) ==> row in bs && Share(row, m, []) == ForeignShare(row, m, venue)
    ensures !IsForeign(row, m, venue) ==> Fits(Share(row, m, []), MILLI)
  {
    RepairedCounts(ms, bs, venue, m, row);
    FitsZero(MILLI);
  }

  /**
   When every such batch comes to three decimals by itself, the verification passes, and every summand
   it adds up has at most three decimals: no rounding of decimal arithmetic can come between.
   */
  lemma VerificationPassesWhenEachFits(ms: seq<Material>, bs: seq<Batch>, venue: nat)
    requires IsLedger(ms, bs)
    requires forall m :: m in ms && IsLive(m, venue) ==> EachForeignFits(bs, m, venue)
    ensures Drift(Recovered(ms, bs, venue), Repaired(ms, bs, venue), venue, [], []) == []
    ensures forall m, row :: m in ms && IsLive(m, venue) && row in Repaired(ms, bs, venue) ==> Fits(Share(row, m, []), MILLI)
  {
    forall m | m in ms && IsLive(m, venue) ensures Fits(ForeignShares(bs, m, venue), MILLI) {
      ForeignSumFits(bs, m, venue);
    }
    VerificationPassesIff(ms, bs, venue);
    forall m, row | m in ms && IsLive(m, venue) && row in Repaired(ms, bs, venue) ensures Fits(Share(row, m, []), MILLI) {
      SummandFitsIff(ms, bs, venue, m, row);
      assert EachForeignFits(bs, m, venue);
    }
  }

  lemma {:induction false} NothingForeign(bs: seq<Batch>, m: Material, venue: nat)
    requires forall b :: b in bs ==> !IsForeign(b, m, venue)
    ensures ForeignShares(bs, m, venue) == 0.0
    decreases |bs|
  {
    if bs == [] {
    } else {
      NothingForeign(bs[..|bs| - 1], m, venue);
    }
  }

  lemma {:induction false} PositiveSumHasPositiveShare(rows: seq<Batch>, m: Material)
    requires SharesOf(rows, m, []) > 0.0
    ensures exists row :: row in rows && Share(row, m, []) > 0.0
    decreases |rows|
  {
    if rows == [] {
    } else {
      var n := |rows| - 1;
      if Share(rows[n], m, []) > 0.0 {
        assert rows[n] in rows;
      } else {
        PositiveSumHasPositiveShare(rows[..n], m);
      }
    }
  }

  lemma RecoveredOrigin(ms: seq<Material>, bs: seq<Batch>, venue: nat, m': Material)
    requires IsLedger(ms, bs) && m' in Recovered(ms, bs, venue)
    ensures exists m :: m in ms && m' == RecoveredRow(m, Repaired(ms, bs, venue), venue)
  {
    RecoveredRows(ms, bs, venue);
    var k :| 0 <= k < |Recovered(ms, bs, venue)| && Recovered(ms, bs, venue)[k] == m';
    assert ms[k] in ms;
  }

  lemma {:induction false} NoBackfillsIff(ms: seq<Material>, bs: seq<Batch>, venue: nat)
    ensures Backfills(ms, bs, venue) == [] <==> forall m :: m in ms ==> !NeedsBackfill(m, bs, venue)
    decreases |ms|
  {
    if ms == [] {
    } else {
      var n := |ms| - 1;
      NoBackfillsIff(ms[..n], bs, venue);
      assert ms == ms[..n] + [ms[n]];
    }
  }

  lemma {:induction false} NoMismatchesWhen(ms: seq<Material>, bs: seq<Batch>, venue: nat)
    requires forall b :: b in bs ==> HasMaterial(ms, b.material) && !NeedsNormalizing(b, MaterialOf(ms, b.material), venue)
    ensures Mismatches(ms, bs, venue) == []
    decreases |bs|
  {
    if bs == [] {
    } else {
      NoMismatchesWhen(ms, bs[..|bs| - 1], venue);
      assert bs[|bs| - 1] in bs;
    }
  }

  lemma RecoveredUnique(ms: seq<Material>, bs: seq<Batch>, venue: nat)
    requires IsLedger(ms, bs)
    ensures UniqueMaterials(Recovered(ms, bs, venue))
  {
    RecoveredRows(ms, bs, venue);
    forall k | 0 <= k < |ms| ensures Recovered(ms, bs, venue)[k].id == ms[k].id {
    }
  }

  /** Keys and units of the materials survive phase 3. */
  lemma RecoveredKeys(ms: seq<Material>, bs: seq<Batch>, venue: nat, m: Material)
    requires IsLedger(ms, bs) && m in ms
    ensures HasMaterial(Recovered(ms, bs, venue), m.id)
    ensures MaterialOf(Recovered(ms, bs, venue), m.id)
         == RecoveredRow(m, Repaired(ms, bs, venue), venue)
  {
    RecoveredRows(ms, bs, venue);
    RecoveredUnique(ms, bs, venue);
    var k :| 0 <= k < |ms| && ms[k] == m;
    MaterialIsOnly(Recovered(ms, bs, venue), Recovered(ms, bs, venue)[k]);
  }

  // ----- What the phases keep -----

  lemma NormalizeKeepsLedger(ms: seq<Material>, bs: seq<Batch>, plans: seq<NormalizePlan>)
    requires IsLedger(ms, bs)
    ensures IsLedger(ms, AfterNormalize(bs, plans))
  {
    var rows := AfterNormalize(bs, plans);
    AfterNormalizeRow(bs, plans);
    forall row | row in rows ensures HasMaterial(ms, row.material) && Fits(row.remaining, MILLI) {
      var k :| 0 <= k < |rows| && rows[k] == row;
      assert bs[k] in bs;
      if NormalizeFor(plans, bs[k].id).Some? {
        StoredFits(NormalizeFor(plans, bs[k].id).value.remainingAfter, MILLI);
      }
    }
  }

  lemma OneBackfillKeepsLedger(ms: seq<Material>, bs: seq<Batch>, p: BackfillPlan, venue: nat)
    requires IsLedger(ms, bs) && HasMaterial(ms, p.material)
    ensures IsLedger(ms, bs + [NewBatch(FreshId(bs), p, venue)])
  {
    StoredFits(p.stock, MILLI);
  }

  lemma {:induction false} BackfillsKeepLedger(ms: seq<Material>, bs: seq<Batch>, plans: seq<BackfillPlan>, venue: nat)
    requires IsLedger(ms, bs) && forall k :: 0 <= k < |plans| ==> HasMaterial(ms, plans[k].material)
    ensures IsLedger(ms, AfterBackfill(bs, plans, venue))
    decreases |plans|
  {
    if plans == [] {
    } else {
      var n := |plans| - 1;
      BackfillsKeepLedger(ms, bs, plans[..n], venue);
      OneBackfillKeepsLedger(ms, AfterBackfill(bs, plans[..n], venue), plans[n], venue);
    }
  }

  /** After phases 1 and 2 no batch of the venue is left in a convertible unit. */
  lemma SecondRunFindsNoMismatch(ms: seq<Material>, bs: seq<Batch>, venue: nat)
    requires IsLedger(ms, bs)
    ensures HaveMaterials(Recovered(ms, bs, venue), Repaired(ms, bs, venue))
    ensures Mismatches(Recovered(ms, bs, venue), Repaired(ms, bs, venue), venue) == []
  {
    var ms', rows := Recovered(ms, bs, venue), Repaired(ms, bs, venue);
    assert HaveMaterials(ms, AfterBackfill(bs, Backfills(ms, bs, venue), venue)) by {
      BackfillsOnePlanEach(ms, bs, venue);
      BackfillsKeepLedger(ms, bs, Backfills(ms, bs, venue), venue);
    }
    forall row | row in rows
      ensures HasMaterial(ms', row.material) && !NeedsNormalizing(row, MaterialOf(ms', row.material), venue)
    {
      RepairedRow(ms, bs, venue, row);
      var before :| IsOrigin(ms, bs, venue, row, before);
      var m := MaterialOf(ms, before.material);
      RecoveredKeys(ms, bs, venue, m);
      PlanOfRow(ms, bs, venue, m, before);
      if before !in bs {
        AfterBackfillRows(bs, Backfills(ms, bs, venue), venue, before);
        var p :| p in Backfills(ms, bs, venue) && before == NewBatch(before.id, p, venue);
        BackfillUnit(ms, bs, venue, p, m);
      }
    }
    NoMismatchesWhen(ms', rows, venue);
  }

  /** An executed recovery leaves a well-formed ledger. */
  lemma RecoveryKeepsLedger(ms: seq<Material>, bs: seq<Batch>, venue: nat)
    requires IsLedger(ms, bs)
    ensures IsLedger(Recovered(ms, bs, venue), Repaired(ms, bs, venue))
  {
    BackfillsOnePlanEach(ms, bs, venue);
    BackfillsKeepLedger(ms, bs, Backfills(ms, bs, venue), venue);
    NormalizeKeepsLedger(ms, AfterBackfill(bs, Backfills(ms, bs, venue), venue), Mismatches(ms, bs, venue));
    RecoveredUnique(ms, bs, venue);
    SecondRunFindsNoMismatch(ms, bs, venue);
    forall m' | m' in Recovered(ms, bs, venue) ensures Fits(m'.stock, MILLI) {
      RecoveredOrigin(ms, bs, venue, m');
      var m :| m in ms && m' == RecoveredRow(m, Repaired(ms, bs, venue), venue);
      StoredFits(SharesOf(Repaired(ms, bs, venue), m, []), MILLI);
    }
  }

  // ----- A backfilled material in the dry run -----

  /** A backfilled material is reported as drifting iff its own active batches add up to something. */
  lemma {:induction false} BackfilledDriftsIff(ms: seq<Material>, bs: seq<Batch>, venue: nat, m: Material)
    requires IsLedger(ms, bs) && m in ms && NeedsBackfill(m, bs, venue)
    ensures var backfills, normalizes := Backfills(ms, bs, venue), Mismatches(ms, bs, venue);
            RecomputeFor(Drift(ms, bs, venue, backfills, normalizes), m.id) == None <==> SharesOf(bs, m, normalizes) == 0.0
  {
    var backfills, normalizes := Backfills(ms, bs, venue), Mismatches(ms, bs, venue);
    BackfillForMaterial(ms, bs, venue, m);
    RecomputeForMaterial(ms, bs, venue, backfills, normalizes, m);
  }

  /** Nothing left means nothing in the other unit, temperatures apart. */
  predicate ZeroStaysZero(b: Batch, m: Material) {
    b.material == m.id && b.active ==> b.remaining >= 0.0 && (b.unit == m.unit || !IsScale(m.unit))
  }

  lemma {:induction false} SpentBatchesShareNothing(ms: seq<Material>, all: seq<Batch>, bs: seq<Batch>, venue: nat, m: Material)
    requires IsLedger(ms, all) && m in ms
    requires forall b :: b in bs ==> b in all && !IsOpenBatch(b, m.id) && ZeroStaysZero(b, m)
    ensures SharesOf(bs, m, Mismatches(ms, all, venue)) == 0.0
    decreases |bs|
  {
    if bs == [] {
    } else {
      var n := |bs| - 1;
      var b := bs[n];
      assert b in bs;
      SpentBatchesShareNothing(ms, all, bs[..n], venue, m);
      if b.material == m.id && b.active {
        MaterialIsOnly(ms, m);
        MismatchFor(ms, all, venue, b);
        if AreCompatible(b.unit, m.unit) {
          ConvertSign(b.remaining, b.unit, m.unit);
        }
      }
    }
  }

  /** With no negative remainders and no mixed temperature scales, a backfilled material never drifts. */
  lemma BackfilledNeverDrifts(ms: seq<Material>, bs: seq<Batch>, venue: nat, m: Material)
    requires IsLedger(ms, bs) && m in ms && NeedsBackfill(m, bs, venue)
    requires forall b :: b in bs ==> ZeroStaysZero(b, m)
    ensures RecomputeFor(Drift(ms, bs, venue, Backfills(ms, bs, venue), Mismatches(ms, bs, venue)), m.id)
         == None
  {
    SpentBatchesShareNothing(ms, bs, bs, venue, m);
    BackfilledDriftsIff(ms, bs, venue, m);
  }

  // ----- Ledgers on which a promise fails -----

  lemma FiveAndAHalfGrams()
    ensures Convert(5.5, GRAM, KILOGRAM) == 0.0055
    ensures Stored(0.0055, MILLI) == 0.006
    ensures !Fits(0.0055, MILLI)
    ensures Fits(1.0, MILLI) && Fits(5.5, MILLI)
  {
    assert (5.5 + 0.5).Floor == 6;
    FitsWhole(1.0, MILLI, 1000);
    FitsWhole(5.5, MILLI, 5500);
    StoredKeepsIffFits(0.0055, MILLI);
  }

  /** One kilogram on the books of a material kept in kilograms. */
  const KILOGRAM_ON_BOOKS: seq<Material> := [Material(0, 0, true, false, KILOGRAM, 1.0, 1.0, 1.0)]

  /** Its only batch: 5.5 g. */
  function Grams(batchVenue: nat): seq<Batch> {
    [Batch(0, 0, batchVenue, true, GRAM, 5.5, 5.5, Finite(1.0))]
  }

  lemma GramsLedger(batchVenue: nat)
    ensures IsLedger(KILOGRAM_ON_BOOKS, Grams(batchVenue)) && MaterialOf(KILOGRAM_ON_BOOKS, 0) == KILOGRAM_ON_BOOKS[0]
  {
    FiveAndAHalfGrams();
    MaterialIsOnly(KILOGRAM_ON_BOOKS, KILOGRAM_ON_BOOKS[0]);
  }

  /** The dry run promises 0.0055 kg where the execution stores 0.006 kg. */
  lemma DryRunCanDiffer()
    ensures var ms, bs := KILOGRAM_ON_BOOKS, Grams(0);
            && IsLedger(ms, bs)
            && Drift(ms, bs, 0, Backfills(ms, bs, 0), Mismatches(ms, bs, 0)) != Drift(ms, Repaired(ms, bs, 0), 0, [], [])
  {
    var ms, bs := KILOGRAM_ON_BOOKS, Grams(0);
    GramsLedger(0);
    FiveAndAHalfGrams();
    MismatchFor(ms, bs, 0, bs[0]);
    var normalizes := Mismatches(ms, bs, 0);
    assert RoundingOf(bs[0], ms[0], normalizes) == 0.006 - 0.0055;
    assert bs[..0] == [];
    assert Rounding(bs, ms[0], normalizes) == Rounding([], ms[0], normalizes) + RoundingOf(bs[0], ms[0], normalizes);
    assert IsLive(ms[0], 0) && Rounding(bs, ms[0], normalizes) != 0.0;
    DryRunEqualsExecutionIff(ms, bs, 0);
  }

  /** The same batch booked in another venue is never normalised, and the final verification fails. */
  lemma VerificationCanFail()
    ensures var ms, bs := KILOGRAM_ON_BOOKS, Grams(1);
            IsLedger(ms, bs) && Drift(Recovered(ms, bs, 0), Repaired(ms, bs, 0), 0, [], []) != []
  {
    var ms, bs := KILOGRAM_ON_BOOKS, Grams(1);
    GramsLedger(1);
    FiveAndAHalfGrams();
    assert bs[..0] == [];
    assert ForeignShares(bs, ms[0], 0) == ForeignShares([], ms[0], 0) + ForeignShare(bs[0], ms[0], 0) == 0.0055;
    assert IsLive(ms[0], 0);
    VerificationPassesIff(ms, bs, 0);
  }

  /** A material kept in degrees Fahrenheit. */
  function Fahrenheit(stock: real): seq<Material> {
    [Material(0, 0, true, false, FAHRENHEIT, stock, 1.0, 1.0)]
  }

  /** Its only batch: spent in Celsius, 32 degrees in Fahrenheit. */
  function SpentCelsius(batchVenue: nat): seq<Batch> {
    [Batch(0, 0, batchVenue, true, CELSIUS, 10.0, 0.0, Finite(1.0))]
  }

  lemma SpentLedger(batchVenue: nat, stock: real)
    requires Fits(stock, MILLI)
    ensures IsLedger(Fahrenheit(stock), SpentCelsius(batchVenue)) && MaterialOf(Fahrenheit(stock), 0) == Fahrenheit(stock)[0]
    ensures Convert(0.0, CELSIUS, FAHRENHEIT) == 32.0
  {
    FitsZero(MILLI);
    MaterialIsOnly(Fahrenheit(stock), Fahrenheit(stock)[0]);
  }

  /** Booked at home, it makes a backfilled material drift: the dry run announces 37 where 5 are on the books. */
  lemma BackfilledCanDrift()
    ensures var ms, bs := Fahrenheit(5.0), SpentCelsius(0);
            && IsLedger(ms, bs) && NeedsBackfill(ms[0], bs, 0)
            && RecomputeFor(Drift(ms, bs, 0, Backfills(ms, bs, 0), Mismatches(ms, bs, 0)), 0) == Some(RecomputePlan(0, 5.0, 37.0, 32.0))
  {
    var ms, bs := Fahrenheit(5.0), SpentCelsius(0);
    FitsWhole(5.0, MILLI, 5000);
    SpentLedger(0, 5.0);
    var m, normalizes := ms[0], Mismatches(ms, bs, 0);
    MismatchFor(ms, bs, 0, bs[0]);
    assert bs[..0] == [];
    assert Share(bs[0], m, normalizes) == 32.0;
    assert SharesOf(bs, m, normalizes) == SharesOf([], m, normalizes) + Share(bs[0], m, normalizes);
    BackfillForMaterial(ms, bs, 0, m);
    RecomputeForMaterial(ms, bs, 0, Backfills(ms, bs, 0), normalizes, m);
  }
}
