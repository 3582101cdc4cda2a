/**
 Running the inventory recovery again: what a second run finds and changes, read off the ledger
 before the first.
 */
module InventorySecondRun {
  import opened Columns
  import opened Units
  import opened Materials
  import opened Inventory
  import opened InventoryLaws
  import opened InventoryFixedPoint

  // ----- What the first run leaves stranded -----

  /** The stock that phase 3 leaves in a live material, whether it had to write it or not. */
  lemma RecoveredStock(m: Material, rows: seq<Batch>, venue: nat)
    requires Fits(m.stock, MILLI) && IsLive(m, venue)
    ensures RecoveredRow(m, rows, venue).stock == Stored(SharesOf(rows, m, []), MILLI)
  {
    StoredKeepsIffFits(m.stock, MILLI);
  }

  /** Stock on the books, and no batch to take it from: a material that the next run backfills. */
  ghost predicate IsStranded(m: Material, rows: seq<Batch>, venue: nat) {
    IsLive(m, venue) && Stored(SharesOf(rows, m, []), MILLI) > 0.0 && forall row :: row in rows ==> !IsOpenBatch(row, m.id)
  }

  ghost predicate NoneStranded(ms: seq<Material>, rows: seq<Batch>, venue: nat) {
    forall m :: m in ms ==> !IsStranded(m, rows, venue)
  }

  lemma BackfilledAgainIff(m: Material, rows: seq<Batch>, venue: nat)
    requires Fits(m.stock, MILLI)
    ensures NeedsBackfill(RecoveredRow(m, rows, venue), rows, venue) <==> IsStranded(m, rows, venue)
  {
    if IsLive(m, venue) {
      RecoveredStock(m, rows, venue);
    }
  }

  lemma NoBackfillsIffNoneStranded(ms: seq<Material>, bs: seq<Batch>, venue: nat)
    requires IsLedger(ms, bs)
    ensures Backfills(Recovered(ms, bs, venue), Repaired(ms, bs, venue), venue) == []
       <==> NoneStranded(ms, Repaired(ms, bs, venue), venue)
  {
    var ms', rows := Recovered(ms, bs, venue), Repaired(ms, bs, venue);
    RecoveredRows(ms, bs, venue);
    NoBackfillsIff(ms', rows, venue);
    forall k | 0 <= k < |ms| ensures ms[k] in ms && ms'[k] in ms' && (NeedsBackfill(ms'[k], rows, venue) <==> IsStranded(ms[k], rows, venue)) {
      assert ms[k] in ms;
      BackfilledAgainIff(ms[k], rows, venue);
    }
  }

  lemma RecoveredAgain(m: Material, rows: seq<Batch>, venue: nat)
    ensures RecoveredRow(RecoveredRow(m, rows, venue), rows, venue) == RecoveredRow(m, rows, venue)
  {
    SharesIgnoreStock(rows, m, RecoveredRow(m, rows, venue), []);
  }

  lemma IdleWhenNoneStranded(ms: seq<Material>, bs: seq<Batch>, venue: nat)
    requires IsLedger(ms, bs) && NoneStranded(ms, Repaired(ms, bs, venue), venue)
    ensures HaveMaterials(Recovered(ms, bs, venue), Repaired(ms, bs, venue))
    ensures Repaired(Recovered(ms, bs, venue), Repaired(ms, bs, venue), venue)
         == Repaired(ms, bs, venue)
    ensures Recovered(Recovered(ms, bs, venue), Repaired(ms, bs, venue), venue)
         == Recovered(ms, bs, venue)
  {
    var ms', rows := Recovered(ms, bs, venue), Repaired(ms, bs, venue);
    RecoveryKeepsLedger(ms, bs, venue);
    NoBackfillsIffNoneStranded(ms, bs, venue);
    SecondRunFindsNoMismatch(ms, bs, venue);
    assert Repaired(ms', rows, venue) == rows;
    RecoveredRows(ms, bs, venue);
    RecoveredRows(ms', rows, venue);
    forall k | 0 <= k < |ms| ensures Recovered(ms', rows, venue)[k] == ms'[k] {
      assert ms[k] in ms;
      RecoveredAgain(ms[k], rows, venue);
    }
  }

  lemma {:induction false} BackfillsAdd(bs: seq<Batch>, plans: seq<BackfillPlan>, venue: nat)
    ensures |AfterBackfill(bs, plans, venue)| == |bs| + |plans|
    decreases |plans|
  {
    if plans == [] {
    } else {
      BackfillsAdd(bs, plans[..|plans| - 1], venue);
    }
  }

  lemma StrandedGetsBatch(ms: seq<Material>, bs: seq<Batch>, venue: nat)
    requires IsLedger(ms, bs) && !NoneStranded(ms, Repaired(ms, bs, venue), venue)
    ensures HaveMaterials(Recovered(ms, bs, venue), Repaired(ms, bs, venue))
    ensures |Repaired(Recovered(ms, bs, venue), Repaired(ms, bs, venue), venue)| > |Repaired(ms, bs, venue)|
  {
    var ms', rows := Recovered(ms, bs, venue), Repaired(ms, bs, venue);
    var plans := Backfills(ms', rows, venue);
    RecoveryKeepsLedger(ms, bs, venue);
    NoBackfillsIffNoneStranded(ms, bs, venue);
    BackfillsAdd(rows, plans, venue);
    AfterNormalizeRow(AfterBackfill(rows, plans, venue), Mismatches(ms', rows, venue));
  }

  lemma BackfilledNotStranded(ms: seq<Material>, bs: seq<Batch>, venue: nat, m: Material)
    requires IsLedger(ms, bs) && m in ms && (IsLive(m, venue) ==> m.stock == Stored(SharesOf(bs, m, []), MILLI))
    ensures !IsStranded(m, AfterBackfill(bs, Backfills(ms, bs, venue), venue), venue)
  {
    var plans := Backfills(ms, bs, venue);
    BackfillForMaterial(ms, bs, venue, m);
    BackfillForMeaning(plans, m.id);
    if NeedsBackfill(m, bs, venue) {
      StoredKeepsIffFits(m.stock, MILLI);
      BackfillOpensBatch(bs, plans, venue, BackfillOf(m));
    } else {
      AfterBackfillKeeps(bs, plans, venue);
      BackfillsOnePlanEach(ms, bs, venue);
      SharesAfterBackfill(bs, plans, venue, m, []);
      assert forall b :: b in bs ==> b in AfterBackfill(bs, plans, venue);
    }
  }

  /** On every ledger a third run changes no row: what the first strands, the second gives a batch. */
  lemma TwoRunsSuffice(ms: seq<Material>, bs: seq<Batch>, venue: nat)
    requires IsLedger(ms, bs)
    ensures HaveMaterials(Recovered(ms, bs, venue), Repaired(ms, bs, venue))
    ensures var ms', rows := Recovered(ms, bs, venue), Repaired(ms, bs, venue);
            var ms'', rows' := Recovered(ms', rows, venue), Repaired(ms', rows, venue);
            HaveMaterials(ms'', rows') && Repaired(ms'', rows', venue) == rows' && Recovered(ms'', rows', venue) == ms''
  {
    var ms', rows := Recovered(ms, bs, venue), Repaired(ms, bs, venue);
    RecoveryKeepsLedger(ms, bs, venue);
    SecondRunFindsNoMismatch(ms, bs, venue);
    assert Repaired(ms', rows, venue) == AfterBackfill(rows, Backfills(ms', rows, venue), venue);
    forall m' | m' in ms' ensures !IsStranded(m', Repaired(ms', rows, venue), venue) {
      RecoveredOrigin(ms, bs, venue, m');
      var m :| m in ms && m' == RecoveredRow(m, Repaired(ms, bs, venue), venue);
      SharesIgnoreStock(rows, m, m', []);
      if IsLive(m, venue) {
        RecoveredStock(m, rows, venue);
      }
      BackfilledNotStranded(ms', rows, venue, m');
    }
    IdleWhenNoneStranded(ms', rows, venue);
  }

  lemma {:induction false} BackfillOpensBatch(bs: seq<Batch>, plans: seq<BackfillPlan>, venue: nat, p: BackfillPlan)
    requires p in plans && Stored(p.stock, MILLI) > 0.0
    ensures exists row :: row in AfterBackfill(bs, plans, venue) && IsOpenBatch(row, p.material)
    decreases |plans|
  {
    var n := |plans| - 1;
    var before := AfterBackfill(bs, plans[..n], venue);
    var after := AfterBackfill(bs, plans, venue);
    if p == plans[n] {
      assert after[|before|] == NewBatch(FreshId(before), p, venue) && after[|before|] in after;
    } else {
      BackfillOpensBatch(bs, plans[..n], venue, p);
      assert forall row :: row in before ==> row in after;
    }
  }

  // ----- What the first run strands, on the ledger before it -----

  /** What a batch adds to the stock of the material after phases 1 and 2. */
  function StoredShare(b: Batch, m: Material, venue: nat): real {
    if b.material != m.id || !b.active then 0.0
    else if NeedsNormalizing(b, m, venue) then Stored(Convert(b.remaining, b.unit, m.unit), MILLI)
    else InUnit(b.remaining, b.unit, m.unit)
  }

  function StoredShares(bs: seq<Batch>, m: Material, venue: nat): real {
    if bs == [] then 0.0 else StoredShares(bs[..|bs| - 1], m, venue) + StoredShare(bs[|bs| - 1], m, venue)
  }

  lemma {:induction false} SharesAreStored(ms: seq<Material>, all: seq<Batch>, bs: seq<Batch>, venue: nat, m: Material)
    requires IsLedger(ms, all) && m in ms
    requires forall b :: b in bs ==> b in all
    ensures SharesOf(bs, m, Mismatches(ms, all, venue)) + Rounding(bs, m, Mismatches(ms, all, venue))
         == StoredShares(bs, m, venue)
    decreases |bs|
  {
    if bs == [] {
    } else {
      var n := |bs| - 1;
      assert bs[n] in bs;
      SharesAreStored(ms, all, bs[..n], venue, m);
      if bs[n].material == m.id {
        MaterialIsOnly(ms, m);
        MismatchFor(ms, all, venue, bs[n]);
      }
    }
  }

  /** The stock after phases 1 and 2, from the ledger before them. */
  lemma StockAfterRun(ms: seq<Material>, bs: seq<Batch>, venue: nat, m: Material)
    requires IsLedger(ms, bs) && m in ms
    ensures SharesOf(Repaired(ms, bs, venue), m, [])
         == StoredShares(bs, m, venue) + if NeedsBackfill(m, bs, venue) then m.stock else 0.0
  {
    ExecutedStock(ms, bs, venue, m);
    SharesAreStored(ms, bs, bs, venue, m);
    BackfillForMaterial(ms, bs, venue, m);
  }

  /** A batch of the material that has nothing left to take from after phases 1 and 2. */
  predicate StaysClosed(b: Batch, m: Material, venue: nat) {
    b.material == m.id && b.active ==>
      (if NeedsNormalizing(b, m, venue) then Stored(Convert(b.remaining, b.unit, m.unit), MILLI) else b.remaining) <= 0.0
  }

  ghost predicate AllStayClosed(bs: seq<Batch>, m: Material, venue: nat) {
    forall b :: b in bs ==> StaysClosed(b, m, venue)
  }

  /** A live material that the first run neither backfills nor leaves with an open batch, but gives a positive stock. */
  ghost predicate WillStrand(m: Material, bs: seq<Batch>, venue: nat) {
    && IsLive(m, venue) && !NeedsBackfill(m, bs, venue) && AllStayClosed(bs, m, venue)
    && Stored(StoredShares(bs, m, venue), MILLI) > 0.0
  }

  ghost predicate NoneWillStrand(ms: seq<Material>, bs: seq<Batch>, venue: nat) {
    forall m :: m in ms ==> !WillStrand(m, bs, venue)
  }

  /** A row of the ledger is open after phases 1 and 2 iff it does not stay closed. */
  lemma RowOpenIff(ms: seq<Material>, bs: seq<Batch>, venue: nat, m: Material, b: Batch)
    requires IsLedger(ms, bs) && m in ms && b in bs
    ensures IsOpenBatch(NormalizedRow(b, Mismatches(ms, bs, venue)), m.id)
       <==> !StaysClosed(b, m, venue)
  {
    MismatchFor(ms, bs, venue, b);
    if b.material == m.id {
      MaterialIsOnly(ms, m);
    }
  }

  /** An open row after phases 1 and 2 is a row of the ledger that does not stay closed, or the new batch of a backfill. */
  lemma OpenRowOrigin(ms: seq<Material>, bs: seq<Batch>, venue: nat, m: Material, row: Batch)
    requires IsLedger(ms, bs) && m in ms && row in Repaired(ms, bs, venue) && IsOpenBatch(row, m.id)
    ensures NeedsBackfill(m, bs, venue) || !AllStayClosed(bs, m, venue)
  {
    RepairedRow(ms, bs, venue, row);
    var before :| IsOrigin(ms, bs, venue, row, before);
    if before in bs {
      RowOpenIff(ms, bs, venue, m, before);
    } else {
      AfterBackfillRows(bs, Backfills(ms, bs, venue), venue, before);
      var p :| p in Backfills(ms, bs, venue) && before == NewBatch(before.id, p, venue);
      BackfillForMaterial(ms, bs, venue, m);
      BackfillForMeaning(Backfills(ms, bs, venue), m.id);
    }
  }

  lemma RepairedRowOf(ms: seq<Material>, bs: seq<Batch>, venue: nat, before: Batch)
    requires IsLedger(ms, bs) && before in AfterBackfill(bs, Backfills(ms, bs, venue), venue)
    ensures NormalizedRow(before, Mismatches(ms, bs, venue)) in Repaired(ms, bs, venue)
  {
    var filled := AfterBackfill(bs, Backfills(ms, bs, venue), venue);
    AfterNormalizeRow(filled, Mismatches(ms, bs, venue));
    var k :| 0 <= k < |filled| && filled[k] == before;
    assert Repaired(ms, bs, venue)[k] == NormalizedRow(before, Mismatches(ms, bs, venue));
  }

  lemma NotClosedIsOpen(ms: seq<Material>, bs: seq<Batch>, venue: nat, m: Material)
    requires IsLedger(ms, bs) && m in ms && !AllStayClosed(bs, m, venue)
    ensures exists row :: row in Repaired(ms, bs, venue) && IsOpenBatch(row, m.id)
  {
    var b :| b in bs && !StaysClosed(b, m, venue);
    AfterBackfillKeeps(bs, Backfills(ms, bs, venue), venue);
    assert b in AfterBackfill(bs, Backfills(ms, bs, venue), venue);
    RepairedRowOf(ms, bs, venue, b);
    RowOpenIff(ms, bs, venue, m, b);
  }

  lemma BackfilledIsOpen(ms: seq<Material>, bs: seq<Batch>, venue: nat, m: Material)
    requires IsLedger(ms, bs) && m in ms && NeedsBackfill(m, bs, venue)
    ensures exists row :: row in Repaired(ms, bs, venue) && IsOpenBatch(row, m.id)
  {
    var plans := Backfills(ms, bs, venue);
    BackfillForMaterial(ms, bs, venue, m);
    BackfillForMeaning(plans, m.id);
    StoredKeepsIffFits(m.stock, MILLI);
    BackfillOpensBatch(bs, plans, venue, BackfillOf(m));
    var row :| row in AfterBackfill(bs, plans, venue) && IsOpenBatch(row, m.id);
    RepairedRowOf(ms, bs, venue, row);
    PlanOfRow(ms, bs, venue, m, row);
    assert !(row in bs);
  }

  /** What the first run will strand can be read off the ledger before it. */
  lemma StrandedIff(ms: seq<Material>, bs: seq<Batch>, venue: nat, m: Material)
    requires IsLedger(ms, bs) && m in ms
    ensures IsStranded(m, Repaired(ms, bs, venue), venue) <==> WillStrand(m, bs, venue)
  {
    StockAfterRun(ms, bs, venue, m);
    if NeedsBackfill(m, bs, venue) {
      BackfilledIsOpen(ms, bs, venue, m);
    } else if !AllStayClosed(bs, m, venue) {
      NotClosedIsOpen(ms, bs, venue, m);
    } else {
      forall row | row in Repaired(ms, bs, venue) ensures !IsOpenBatch(row, m.id) {
        if IsOpenBatch(row, m.id) {
          OpenRowOrigin(ms, bs, venue, m, row);
        }
      }
    }
  }

  lemma NoneStrandedIff(ms: seq<Material>, bs: seq<Batch>, venue: nat)
    requires IsLedger(ms, bs)
    ensures NoneStranded(ms, Repaired(ms, bs, venue), venue) <==> NoneWillStrand(ms, bs, venue)
  {
    forall m | m in ms ensures IsStranded(m, Repaired(ms, bs, venue), venue) <==> WillStrand(m, bs, venue) {
      StrandedIff(ms, bs, venue, m);
    }
  }

  // ----- The laws of the second run -----

  /** The second run backfills iff the ledger before the first holds a material that the first will strand. */
  lemma SecondRunBackfillsIff(ms: seq<Material>, bs: seq<Batch>, venue: nat)
    requires IsLedger(ms, bs)
    ensures Backfills(Recovered(ms, bs, venue), Repaired(ms, bs, venue), venue) == []
       <==> NoneWillStrand(ms, bs, venue)
  {
    NoBackfillsIffNoneStranded(ms, bs, venue);
    NoneStrandedIff(ms, bs, venue);
  }

  /**
   The fixed point, on every ledger: the stocks are the sums of their convertible active batches and
   a second run finds no backfill, no mismatch and no drift iff the batches booked elsewhere come to
   three decimals and no material will be stranded.
   */
  lemma FixedPointIff(ms: seq<Material>, bs: seq<Batch>, venue: nat)
    requires IsLedger(ms, bs)
    ensures var ms', rows := Recovered(ms, bs, venue), Repaired(ms, bs, venue);
            && HaveMaterials(ms', rows)
            && (&& (forall m :: m in ms' && IsLive(m, venue) ==> m.stock == SharesOf(rows, m, []))
                && Drift(ms', rows, venue, [], []) == [] && Backfills(ms', rows, venue) == [] && Mismatches(ms', rows, venue) == []
                <==> && (forall m :: m in ms && IsLive(m, venue) ==> Fits(ForeignShares(bs, m, venue), MILLI))
                     && NoneWillStrand(ms, bs, venue))
  {
    NoDriftIff(Recovered(ms, bs, venue), Repaired(ms, bs, venue), venue);
    VerificationPassesIff(ms, bs, venue);
    SecondRunBackfillsIff(ms, bs, venue);
    SecondRunFindsNoMismatch(ms, bs, venue);
  }

  /**
   On every ledger, running the recovery again changes no row iff the ledger before the first run
   holds no material that it will strand; whether the verification passed makes no difference.
   */
  lemma SecondRunIsIdleIff(ms: seq<Material>, bs: seq<Batch>, venue: nat)
    requires IsLedger(ms, bs)
    ensures var ms', rows := Recovered(ms, bs, venue), Repaired(ms, bs, venue);
            && HaveMaterials(ms', rows)
            && (Repaired(ms', rows, venue) == rows && Recovered(ms', rows, venue) == ms' <==> NoneWillStrand(ms, bs, venue))
  {
    RecoveryKeepsLedger(ms, bs, venue);
    NoneStrandedIff(ms, bs, venue);
    if NoneWillStrand(ms, bs, venue) {
      IdleWhenNoneStranded(ms, bs, venue);
    } else {
      StrandedGetsBatch(ms, bs, venue);
    }
  }

  /** What strands a material: another venue's batch, spent in its own scale of temperature, but not in the material's. */
  lemma StrandedMeansMixedScales(ms: seq<Material>, bs: seq<Batch>, venue: nat, m: Material)
    requires IsLedger(ms, bs) && m in ms && WillStrand(m, bs, venue)
    ensures exists b :: b in bs && IsForeign(b, m, venue) && IsScale(m.unit) && b.remaining <= 0.0 < Convert(b.remaining, b.unit, m.unit)
  {
    var rows := Repaired(ms, bs, venue);
    StrandedIff(ms, bs, venue, m);
    if SharesOf(rows, m, []) <= 0.0 {
      StoredNotPositive(SharesOf(rows, m, []), MILLI);
    }
    PositiveSumHasPositiveShare(rows, m);
    var row :| row in rows && Share(row, m, []) > 0.0;
    RepairedCounts(ms, bs, venue, m, row);
    assert !IsOpenBatch(row, m.id);
    if !IsScale(m.unit) && AreCompatible(row.unit, m.unit) {
      ConvertSign(row.remaining, row.unit, m.unit);
    }
  }

  /** No live material has a batch that another venue booked in the other scale of temperature. */
  ghost predicate NoForeignScales(ms: seq<Material>, bs: seq<Batch>, venue: nat) {
    forall m, b :: m in ms && IsLive(m, venue) && b in bs && IsForeign(b, m, venue) ==> !IsScale(m.unit)
  }

  /** Then nothing is stranded: a second run changes no row, and finds nothing iff the verification passed. */
  lemma NoScalesNoneStrand(ms: seq<Material>, bs: seq<Batch>, venue: nat)
    requires IsLedger(ms, bs) && NoForeignScales(ms, bs, venue)
    ensures NoneWillStrand(ms, bs, venue)
  {
    forall m | m in ms ensures !WillStrand(m, bs, venue) {
      if WillStrand(m, bs, venue) {
        StrandedMeansMixedScales(ms, bs, venue, m);
        assert false;
      }
    }
  }

  ghost predicate NoneNegative(bs: seq<Batch>, m: Material) {
    forall b :: b in bs && b.material == m.id && b.active ==> b.remaining >= 0.0
  }

  /** A spent batch of degrees Celsius that another venue booked for a material in degrees Fahrenheit. */
  predicate IsSpentCelsius(b: Batch, m: Material, venue: nat) {
    IsForeign(b, m, venue) && b.unit == CELSIUS && m.unit == FAHRENHEIT && b.remaining == 0.0
  }

  lemma AboveFreezingIsStored(degrees: real)
    ensures degrees >= 32.0 ==> Stored(degrees, MILLI) > 0.0
  {
    StoredError(degrees, MILLI);
  }

  lemma ClosedShare(b: Batch, m: Material, venue: nat)
    requires m.unit == FAHRENHEIT && StaysClosed(b, m, venue) && (b.material == m.id && b.active ==> b.remaining >= 0.0)
    ensures StoredShare(b, m, venue) == if IsSpentCelsius(b, m, venue) then 32.0 else 0.0
  {
    if NeedsNormalizing(b, m, venue) {
      AboveFreezingIsStored(Convert(b.remaining, b.unit, m.unit));
    }
  }

  lemma {:induction false} ClosedShares(bs: seq<Batch>, m: Material, venue: nat)
    requires m.unit == FAHRENHEIT && AllStayClosed(bs, m, venue) && NoneNegative(bs, m)
    ensures StoredShares(bs, m, venue) >= 0.0
    ensures (exists b :: b in bs && IsSpentCelsius(b, m, venue)) ==> StoredShares(bs, m, venue) >= 32.0
    decreases |bs|
  {
    if bs == [] {
    } else {
      var n := |bs| - 1;
      assert bs[n] in bs;
      ClosedShares(bs[..n], m, venue);
      ClosedShare(bs[n], m, venue);
      assert bs == bs[..n] + [bs[n]];
    }
  }

  /**
   With no negative remainders, a live material will be stranded iff it is kept in degrees Fahrenheit,
   not backfilled, all its batches stay closed, and one of them is a spent batch of degrees Celsius
   from another venue.
   */
  lemma StrandedMeansSpentCelsius(ms: seq<Material>, bs: seq<Batch>, venue: nat, m: Material)
    requires IsLedger(ms, bs) && m in ms && IsLive(m, venue) && NoneNegative(bs, m)
    ensures WillStrand(m, bs, venue)
       <==> && !NeedsBackfill(m, bs, venue) && AllStayClosed(bs, m, venue)
            && exists b :: b in bs && IsSpentCelsius(b, m, venue)
  {
    if WillStrand(m, bs, venue) {
      StrandedMeansMixedScales(ms, bs, venue, m);
      var b :| b in bs && IsForeign(b, m, venue) && IsScale(m.unit) && b.remaining <= 0.0 < Convert(b.remaining, b.unit, m.unit);
      assert IsSpentCelsius(b, m, venue);
    }
    if AllStayClosed(bs, m, venue) && exists b :: b in bs && IsSpentCelsius(b, m, venue) {
      ClosedShares(bs, m, venue);
      AboveFreezingIsStored(StoredShares(bs, m, venue));
    }
  }

  /** With the batches at home, both conditions of the fixed point hold. */
  lemma AtHomeReachesFixedPoint(ms: seq<Material>, bs: seq<Batch>, venue: nat)
    requires IsLedger(ms, bs) && BatchesAtHome(ms, bs, venue)
    ensures forall m :: m in ms && IsLive(m, venue) ==> Fits(ForeignShares(bs, m, venue), MILLI)
    ensures NoneWillStrand(ms, bs, venue)
  {
    forall m | m in ms && IsLive(m, venue) ensures Fits(ForeignShares(bs, m, venue), MILLI) {
      NothingForeign(bs, m, venue);
      FitsZero(MILLI);
    }
    NoScalesNoneStrand(ms, bs, venue);
  }

  // ----- A ledger whose second run backfills -----

  lemma SpentStrands()
    ensures IsStranded(Fahrenheit(0.0)[0], SpentCelsius(1), 0)
  {
    var m, bs := Fahrenheit(0.0)[0], SpentCelsius(1);
    assert bs[..0] == [];
    assert SharesOf(bs, m, []) == SharesOf([], m, []) + Share(bs[0], m, []) == 32.0;
    FitsWhole(32.0, MILLI, 32000);
    StoredKeepsIffFits(32.0, MILLI);
  }

  /** Booked in another venue, it strands its material: the first run sets the stock to 32, the second backfills it. */
  lemma SecondRunCanBackfill()
    ensures var ms, bs := Fahrenheit(0.0), SpentCelsius(1);
            && IsLedger(ms, bs) && WillStrand(ms[0], bs, 0)
            && HaveMaterials(Recovered(ms, bs, 0), Repaired(ms, bs, 0))
            && Repaired(Recovered(ms, bs, 0), Repaired(ms, bs, 0), 0) != Repaired(ms, bs, 0)
  {
    var ms, bs := Fahrenheit(0.0), SpentCelsius(1);
    FitsZero(MILLI);
    SpentLedger(1, 0.0);
    NoBackfillsIff(ms, bs, 0);
    NoMismatchesWhen(ms, bs, 0);
    assert Repaired(ms, bs, 0) == bs;
    SpentStrands();
    assert ms[0] in ms;
    StrandedIff(ms, bs, 0, ms[0]);
    StrandedGetsBatch(ms, bs, 0);
  }
}
