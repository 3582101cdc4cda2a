/**
 What unit normalisation does to the value of a batch: first as planned, with exact quantities and
 costs, and then as the columns store it, with three decimals of a quantity and four of a cost.
 */
module InventoryValue {
  import opened Columns
  import opened Units
  import opened Materials
  import opened Inventory
  import opened InventoryLaws

  // ----- The planned value -----

  lemma RescaleKeepsValue(cost: real, initial: real, remaining: real, f: real, g: real)
    requires f > 0.0 && g > 0.0 && initial != 0.0
    ensures Rescale(initial, f, g) != 0.0
    ensures var cost' := SpreadCost(cost, initial, Rescale(initial, f, g));
            && Value(cost', Rescale(initial, f, g)) == Value(cost, initial)
            && Value(cost', Rescale(remaining, f, g)) == Value(cost, remaining)
  {
    RescaleMultiplies(initial, f, g);
    RescaleMultiplies(remaining, f, g);
  }

  /** Outside temperatures, the plan keeps the value of what was received and of what is left. */
  lemma NormalizingConservesValue(b: Batch, unit: Unit)
    requires AreCompatible(b.unit, unit) && b.unit != unit && !IsScale(unit)
    requires b.cost.Finite? && b.initial != 0.0
    ensures var p := NormalizeOf(b, unit);
            && p.costAfter.Finite?
            && Value(p.costAfter.value, p.initialAfter) == Value(b.cost.value, b.initial)
            && Value(p.costAfter.value, p.remainingAfter) == Value(b.cost.value, b.remaining)
  {
    RescaleKeepsValue(b.cost.value, b.initial, b.remaining, ToBase(b.unit), ToBase(unit));
  }

  // ----- The stored value -----

  /** What the columns change of a value: the rounding of the quantity, and the rounding of the cost. */
  function StoringChange(cost: real, quantity: real): real {
    Value(cost, Stored(quantity, MILLI) - quantity) + Value(Stored(cost, TENTH_MILLI) - cost, Stored(quantity, MILLI))
  }

  lemma StoredValue(cost: real, quantity: real)
    ensures Value(Stored(cost, TENTH_MILLI), Stored(quantity, MILLI))
         == Value(cost, quantity) + StoringChange(cost, quantity)
  {
    ChangeOfProduct(cost, Stored(cost, TENTH_MILLI), quantity, Stored(quantity, MILLI));
  }

  lemma ChangeOfProduct(c: real, c': real, q: real, q': real)
    ensures c' * q' == c * q + c * (q' - q) + (c' - c) * q'
  {
  }

  lemma ProductIsZero(x: real, y: real)
    ensures x * y == 0.0 <==> x == 0.0 || y == 0.0
  {
  }

  /** A stored value is exact when both columns hold theirs; where one of them does, only the other decides. */
  lemma NothingChangesIff(cost: real, quantity: real)
    ensures Fits(quantity, MILLI) ==> (StoringChange(cost, quantity) == 0.0 <==> Fits(cost, TENTH_MILLI) || quantity == 0.0)
    ensures Fits(cost, TENTH_MILLI) ==> (StoringChange(cost, quantity) == 0.0 <==> Fits(quantity, MILLI) || cost == 0.0)
  {
    StoredKeepsIffFits(quantity, MILLI);
    StoredKeepsIffFits(cost, TENTH_MILLI);
    ProductIsZero(cost, Stored(quantity, MILLI) - quantity);
    ProductIsZero(Stored(cost, TENTH_MILLI) - cost, Stored(quantity, MILLI));
  }

  lemma ProductIsBounded(x: real, e: real, bound: real)
    requires -bound <= e <= bound
    ensures Abs(x * e) <= bound * Abs(x)
  {
    if x >= 0.0 {
      assert x * e <= x * bound && x * -bound <= x * e;
    } else {
      assert -x * e <= -x * bound && -x * -bound <= -x * e;
    }
  }

  lemma SumIsBounded(x: real, d: real, y: real, e: real)
    requires -0.0005 <= d <= 0.0005 && -0.00005 <= e <= 0.00005
    ensures Abs(Value(x, d) + Value(e, y)) <= 0.0005 * Abs(x) + 0.00005 * Abs(y)
  {
    ProductIsBounded(x, d, 0.0005);
    ProductIsBounded(y, e, 0.00005);
    assert e * y == y * e;
  }

  lemma StoredWithin(x: real)
    ensures -0.0005 <= Stored(x, MILLI) - x <= 0.0005
    ensures -0.00005 <= Stored(x, TENTH_MILLI) - x <= 0.00005
  {
    StoredError(x, MILLI);
    StoredError(x, TENTH_MILLI);
  }

  /** Half a unit of each column, times what it is multiplied with. */
  lemma StoringChangeIsBounded(cost: real, quantity: real)
    ensures Abs(StoringChange(cost, quantity)) <= 0.0005 * Abs(cost) + 0.00005 * Abs(Stored(quantity, MILLI))
  {
    StoredWithin(quantity);
    StoredWithin(cost);
    SumIsBounded(cost, Stored(quantity, MILLI) - quantity, Stored(quantity, MILLI), Stored(cost, TENTH_MILLI) - cost);
  }

  /** The written row of a batch, outside temperatures: its values, and what the columns changed of them. */
  lemma WrittenValue(b: Batch, unit: Unit)
    requires AreCompatible(b.unit, unit) && b.unit != unit && !IsScale(unit)
    requires b.cost.Finite? && b.initial != 0.0
    ensures var p := NormalizeOf(b, unit);
            var r := Normalized(b, p);
            && p.costAfter.Finite? && r.cost.Finite?
            && Value(r.cost.value, r.initial) == Value(b.cost.value, b.initial) + StoringChange(p.costAfter.value, p.initialAfter)
            && Value(r.cost.value, r.remaining) == Value(b.cost.value, b.remaining) + StoringChange(p.costAfter.value, p.remainingAfter)
  {
    var p := NormalizeOf(b, unit);
    NormalizingConservesValue(b, unit);
    StoredValue(p.costAfter.value, p.initialAfter);
    StoredValue(p.costAfter.value, p.remainingAfter);
  }

  /**
   When the converted quantities fit their columns, the written row keeps the value of what was
   received iff the converted cost has at most four decimals, and the value of what is left iff
   that, or nothing is left.
   */
  lemma WrittenValueKeptIff(b: Batch, unit: Unit)
    requires AreCompatible(b.unit, unit) && b.unit != unit && !IsScale(unit)
    requires b.cost.Finite? && b.initial != 0.0
    ensures var p := NormalizeOf(b, unit);
            var r := Normalized(b, p);
            && p.costAfter.Finite? && r.cost.Finite?
            && (Fits(p.initialAfter, MILLI) ==>
                  (Value(r.cost.value, r.initial) == Value(b.cost.value, b.initial) <==> Fits(p.costAfter.value, TENTH_MILLI)))
            && (Fits(p.remainingAfter, MILLI) ==>
                  (Value(r.cost.value, r.remaining) == Value(b.cost.value, b.remaining)
                   <==> Fits(p.costAfter.value, TENTH_MILLI) || b.remaining == 0.0))
  {
    var p := NormalizeOf(b, unit);
    WrittenValue(b, unit);
    NothingChangesIff(p.costAfter.value, p.initialAfter);
    NothingChangesIff(p.costAfter.value, p.remainingAfter);
    ConvertSign(b.initial, b.unit, unit);
    ConvertSign(b.remaining, b.unit, unit);
  }

  /** For every batch, the written values are off by at most half a unit of each column, times the other factor. */
  lemma WrittenValueIsBounded(b: Batch, unit: Unit)
    requires AreCompatible(b.unit, unit) && b.unit != unit && !IsScale(unit)
    requires b.cost.Finite? && b.initial != 0.0
    ensures var p := NormalizeOf(b, unit);
            var r := Normalized(b, p);
            && p.costAfter.Finite? && r.cost.Finite?
            && Abs(Value(r.cost.value, r.initial) - Value(b.cost.value, b.initial))
               <= 0.0005 * Abs(p.costAfter.value) + 0.00005 * Abs(r.initial)
            && Abs(Value(r.cost.value, r.remaining) - Value(b.cost.value, b.remaining))
               <= 0.0005 * Abs(p.costAfter.value) + 0.00005 * Abs(r.remaining)
  {
    var p := NormalizeOf(b, unit);
    WrittenValue(b, unit);
    StoringChangeIsBounded(p.costAfter.value, p.initialAfter);
    StoringChangeIsBounded(p.costAfter.value, p.remainingAfter);
  }

  // ----- Temperatures -----

  /** What the offset between the scales makes of a quantity drawn. */
  function Offset(drawn: real, from: Unit): real {
    if from == CELSIUS then 32.0 * drawn else -(160.0 / 9.0) * drawn
  }

  /** What the offset between the scales adds to the value of what is left. */
  function Revaluation(b: Batch, unit: Unit): real
    requires IsScale(b.unit) && IsScale(unit) && b.unit != unit
    requires b.cost.Finite? && Convert(b.initial, b.unit, unit) != 0.0
  {
    SpreadCost(b.cost.value, Offset(b.initial - b.remaining, b.unit), Convert(b.initial, b.unit, unit))
  }

  lemma OffsetFromCelsius(i: real, r: real)
    ensures i * (r * 9.0 / 5.0 + 32.0) - r * (i * 9.0 / 5.0 + 32.0) == 32.0 * (i - r)
  {
  }

  lemma OffsetFromFahrenheit(i: real, r: real)
    ensures i * ((r - 32.0) * 5.0 / 9.0) - r * ((i - 32.0) * 5.0 / 9.0) == -(160.0 / 9.0) * (i - r)
  {
  }

  /** Between the temperature scales the plan keeps the remaining value iff the batch is untouched or worth nothing. */
  lemma NormalizingTemperatures(b: Batch, unit: Unit)
    requires IsScale(b.unit) && IsScale(unit) && b.unit != unit
    requires b.cost.Finite? && Convert(b.initial, b.unit, unit) != 0.0
    ensures var p := NormalizeOf(b, unit);
            && p.costAfter.Finite?
            && Value(p.costAfter.value, p.initialAfter) == Value(b.cost.value, b.initial)
            && Value(p.costAfter.value, p.remainingAfter) == Value(b.cost.value, b.remaining) + Revaluation(b, unit)
            && (Revaluation(b, unit) == 0.0 <==> b.cost.value == 0.0 || b.initial == b.remaining)
  {
  }

  /**
   The written row of a batch between the temperature scales.  The received value survives like any
   other; what is left is revalued by the offset of the scales, unless nothing was drawn or it is worth nothing.
   */
  lemma WrittenTemperature(b: Batch, unit: Unit)
    requires IsScale(b.unit) && IsScale(unit) && b.unit != unit
    requires b.cost.Finite? && Convert(b.initial, b.unit, unit) != 0.0
    ensures var p := NormalizeOf(b, unit);
            var r := Normalized(b, p);
            && p.costAfter.Finite? && r.cost.Finite?
            && Value(r.cost.value, r.initial) == Value(b.cost.value, b.initial) + StoringChange(p.costAfter.value, p.initialAfter)
            && Value(r.cost.value, r.remaining)
               == Value(b.cost.value, b.remaining) + Revaluation(b, unit) + StoringChange(p.costAfter.value, p.remainingAfter)
            && (Revaluation(b, unit) == 0.0 <==> b.cost.value == 0.0 || b.initial == b.remaining)
  {
    var p := NormalizeOf(b, unit);
    NormalizingTemperatures(b, unit);
    StoredValue(p.costAfter.value, p.initialAfter);
    StoredValue(p.costAfter.value, p.remainingAfter);
  }

  // ----- The row that an execution leaves -----

  /** After phases 1 and 2 a batch is its own normalised row, if it needs normalising, or as it was. */
  lemma ExecutedBatch(ms: seq<Material>, bs: seq<Batch>, venue: nat, k: nat)
    requires IsLedger(ms, bs) && k < |bs|
    ensures |Repaired(ms, bs, venue)| >= |bs|
    ensures HasMaterial(ms, bs[k].material)
    ensures var b, m := bs[k], MaterialOf(ms, bs[k].material);
            Repaired(ms, bs, venue)[k] == if NeedsNormalizing(b, m, venue) then Normalized(b, NormalizeOf(b, m.unit)) else b
  {
    var filled := AfterBackfill(bs, Backfills(ms, bs, venue), venue);
    AfterBackfillKeeps(bs, Backfills(ms, bs, venue), venue);
    AfterNormalizeRow(filled, Mismatches(ms, bs, venue));
    assert filled[k] == bs[k] && bs[k] in bs;
    MismatchFor(ms, bs, venue, bs[k]);
  }

  // ----- Batches whose value changes -----

  /** A kilogram at 12.3456 becomes 1000 g at 0.0123: its value falls from 12.3456 to 12.3. */
  lemma WrittenValueCanChange() returns (b: Batch)
    ensures b == Batch(0, 0, 0, true, KILOGRAM, 1.0, 1.0, Finite(12.3456))
    ensures var r := Normalized(b, NormalizeOf(b, GRAM));
            r.initial == 1000.0 && r.cost == Finite(0.0123) && Value(r.cost.value, r.initial) == 12.3 != Value(12.3456, b.initial)
  {
    b := Batch(0, 0, 0, true, KILOGRAM, 1.0, 1.0, Finite(12.3456));
    assert Convert(1.0, KILOGRAM, GRAM) == 1000.0;
    assert SpreadCost(12.3456, 1.0, 1000.0) == 0.0123456;
    assert (123.456 + 0.5).Floor == 123;
    assert Stored(0.0123456, TENTH_MILLI) == 0.0123;
    FitsWhole(1000.0, MILLI, 1000000);
    StoredKeepsIffFits(1000.0, MILLI);
  }

  /** Half drawn from 10 degrees Celsius at 1.0: 41 of 50 degrees Fahrenheit at 0.2 are left, worth 8.2 instead of 5. */
  lemma TemperatureIsRevalued() returns (b: Batch)
    ensures b == Batch(0, 0, 0, true, CELSIUS, 10.0, 5.0, Finite(1.0))
    ensures Normalized(b, NormalizeOf(b, FAHRENHEIT))
         == Batch(0, 0, 0, true, FAHRENHEIT, 50.0, 41.0, Finite(0.2))
    ensures Value(0.2, 41.0) == 8.2 != Value(1.0, b.remaining)
  {
    b := Batch(0, 0, 0, true, CELSIUS, 10.0, 5.0, Finite(1.0));
    assert Convert(10.0, CELSIUS, FAHRENHEIT) == 50.0 && Convert(5.0, CELSIUS, FAHRENHEIT) == 41.0;
    assert SpreadCost(1.0, 10.0, 50.0) == 0.2;
    FitsWhole(50.0, MILLI, 50000);
    FitsWhole(41.0, MILLI, 41000);
    FitsWhole(0.2, TENTH_MILLI, 2000);
    StoredKeepsIffFits(50.0, MILLI);
    StoredKeepsIffFits(41.0, MILLI);
    StoredKeepsIffFits(0.2, TENTH_MILLI);
  }
}
