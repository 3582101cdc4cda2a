/** What an execution of the cost recovery leaves in the tables, said about the columns themselves. */
module CostRows {
  import opened Options
  import opened Columns
  import opened Units
  import opened Materials
  import opened CostRecovery
  import opened CostLaws
  import opened CostFixedPoint

  /** A live material of the venue, in grams or millilitres, that costs more than one. */
  predicate IsMispriced(m: Material, venue: nat) {
    m.venue == venue && m.active && !m.deleted && (m.unit == GRAM || m.unit == MILLILITER) && m.cost > 1.0
  }

  /** A mispriced material costs a thousandth; so does its average, if that is above one too. */
  ghost predicate IsDivided(m: Material, after: Material, venue: nat) {
    if IsMispriced(m, venue) then
      && after == m.(cost := after.cost, avgCost := after.avgCost)
      && after.cost == Stored(m.cost / 1000.0, TENTH_MILLI)
      && after.avgCost == Stored(if m.avgCost > 1.0 then m.avgCost / 1000.0 else m.avgCost, TENTH_MILLI)
    else after == m
  }

  ghost predicate DividesMaterials(before: seq<Material>, after: seq<Material>, venue: nat) {
    && |after| == |before|
    && forall k :: 0 <= k < |before| ==> IsDivided(before[k], after[k], venue)
  }

  /** An active batch at the cost that its mispriced material had costs a thousandth; no other batch changes. */
  ghost predicate DividesBatches(before: seq<Batch>, after: seq<Batch>, ms: seq<Material>, venue: nat) {
    && |after| == |before|
    && forall k :: 0 <= k < |before| ==>
         var b := before[k];
         after[k] == if b.active && exists m :: m in ms && m.id == b.material && IsMispriced(m, venue) && m.cost == b.cost
                     then b.(cost := Stored(b.cost / 1000.0, TENTH_MILLI))
                     else b
  }

  /** The cost of a material after the execution, before it is rounded to the column. */
  function CostAfter(m: Material, venue: nat): real {
    if IsMispriced(m, venue) then m.cost / 1000.0 else m.cost
  }

  function OfPortion(quantity: real, cost: real, portionYield: nat): real
    requires portionYield > 0
  {
    quantity * cost / portionYield as real
  }

  /** What a portion of the recipe has of the line, at the price the material will have; nothing if the units do not convert. */
  function PriceOf(line: Line, ms: seq<Material>, venue: nat, portionYield: nat): Option<real>
    requires portionYield > 0 && HasMaterial(ms, line.material)
  {
    var m := MaterialOf(ms, line.material);
    if AreCompatible(line.unit, m.unit)
    then Some(OfPortion(Convert(line.quantity, line.unit, m.unit), CostAfter(m, venue), portionYield))
    else None
  }

  function PriceOfAll(lines: seq<Line>, ms: seq<Material>, venue: nat, portionYield: nat): real
    requires portionYield > 0 && LinesHaveMaterials(lines, ms)
  {
    if lines == [] then 0.0
    else
      var n := |lines| - 1;
      var price := PriceOf(lines[n], ms, venue, portionYield);
      PriceOfAll(lines[..n], ms, venue, portionYield) + if price.Some? then price.value else 0.0
  }

  /** A line of the recipe is of a mispriced material. */
  ghost predicate UsesMispriced(r: Recipe, ms: seq<Material>, venue: nat) {
    exists line, m :: line in r.lines && m in ms && line.material == m.id && IsMispriced(m, venue)
  }

  ghost predicate IsLineRepriced(line: Line, after: Line, ms: seq<Material>, venue: nat, portionYield: nat)
    requires portionYield > 0 && HasMaterial(ms, line.material)
  {
    && after == line.(costPerServing := after.costPerServing)
    && match PriceOf(line, ms, venue, portionYield)
       case Some(price) => (if after.costPerServing.Some? then after.costPerServing.value else 0.0) == Stored(price, TENTH_MILLI)
       case None => after == line
  }

  /** Recipes of the venue that use a mispriced material get the new prices, line by line and in total; no other recipe changes. */
  ghost predicate IsRepriced(r: Recipe, after: Recipe, ms: seq<Material>, venue: nat)
    requires IsRecipe(r, ms)
  {
    if r.venue == venue && UsesMispriced(r, ms, venue) then
      && after == r.(totalCost := after.totalCost, lines := after.lines)
      && after.totalCost == Stored(PriceOfAll(r.lines, ms, venue, r.portionYield), TENTH_MILLI)
      && |after.lines| == |r.lines|
      && forall k :: 0 <= k < |r.lines| ==> IsLineRepriced(r.lines[k], after.lines[k], ms, venue, r.portionYield)
    else after == r
  }

  ghost predicate RepricesRecipes(before: seq<Recipe>, after: seq<Recipe>, ms: seq<Material>, venue: nat)
    requires forall r :: r in before ==> IsRecipe(r, ms)
  {
    && |after| == |before|
    && forall k :: 0 <= k < |before| ==> IsRepriced(before[k], after[k], ms, venue)
  }

  lemma FixedIsDivided(m: Material, venue: nat)
    ensures IsDivided(m, FixedMaterial(m, venue), venue)
  {
  }

  lemma FixedMaterialsAreDivided(book: Book, venue: nat)
    requires IsBook(book)
    ensures DividesMaterials(book.materials, Executed(book, venue).materials, venue)
  {
    ExecutedRows(book, venue);
    forall k | 0 <= k < |book.materials| ensures IsDivided(book.materials[k], FixedMaterial(book.materials[k], venue), venue) {
      FixedIsDivided(book.materials[k], venue);
    }
  }

  lemma SharesIffCostsAlike(b: Batch, ms: seq<Material>, venue: nat)
    requires UniqueMaterials(ms)
    ensures SharesSomeOldCost(b, MaterialFixes(ms, venue))
       <==> b.active && exists m :: m in ms && m.id == b.material && IsMispriced(m, venue) && m.cost == b.cost
  {
    if m :| m in ms && m.id == b.material && IsMispriced(m, venue) && m.cost == b.cost {
      SharesOldCostIff(ms, venue, m, b);
    }
    if SharesSomeOldCost(b, MaterialFixes(ms, venue)) {
      var fix :| fix in MaterialFixes(ms, venue) && SharesOldCost(b, fix);
      FixesAre(ms, venue, fix);
    }
  }

  lemma SharedBatchesAreDivided(book: Book, venue: nat)
    requires IsBook(book)
    ensures DividesBatches(book.batches, Executed(book, venue).batches, book.materials, venue)
  {
    ExecutedRows(book, venue);
    forall k | 0 <= k < |book.batches|
      ensures SharesSomeOldCost(book.batches[k], MaterialFixes(book.materials, venue))
         <==> book.batches[k].active && exists m :: m in book.materials && m.id == book.batches[k].material
                                                    && IsMispriced(m, venue) && m.cost == book.batches[k].cost
    {
      SharesIffCostsAlike(book.batches[k], book.materials, venue);
    }
  }

  lemma PortionPrice(quantity: real, cost: real, portionYield: nat)
    requires portionYield > 0
    ensures PerServing(quantity, cost, portionYield) == OfPortion(quantity, cost, portionYield)
  {
  }

  lemma LineCostIsPrice(line: Line, ms: seq<Material>, venue: nat, portionYield: nat)
    requires UniqueMaterials(ms) && portionYield > 0 && HasMaterial(ms, line.material)
    ensures LineCost(line, ms, FixIds(MaterialFixes(ms, venue)), portionYield) == PriceOf(line, ms, venue, portionYield)
  {
    var m, fixed := MaterialOf(ms, line.material), FixIds(MaterialFixes(ms, venue));
    var cost := CostAfter(m, venue);
    IsFixedIff(ms, venue, m);
    assert EffectiveCost(m, fixed) == cost;
    if AreCompatible(line.unit, m.unit) {
      var quantity := Convert(line.quantity, line.unit, m.unit);
      assert QuantityIn(line, m.unit) == Some(quantity);
      PortionPrice(quantity, cost, portionYield);
    }
  }

  lemma {:induction false} TotalCostIsPrice(lines: seq<Line>, ms: seq<Material>, venue: nat, portionYield: nat)
    requires UniqueMaterials(ms) && portionYield > 0 && LinesHaveMaterials(lines, ms)
    ensures TotalCost(lines, ms, FixIds(MaterialFixes(ms, venue)), portionYield) == PriceOfAll(lines, ms, venue, portionYield)
    decreases |lines|
  {
    if lines == [] {
    } else {
      TotalCostIsPrice(lines[..|lines| - 1], ms, venue, portionYield);
      LineCostIsPrice(lines[|lines| - 1], ms, venue, portionYield);
    }
  }

  lemma TouchesIffUses(r: Recipe, ms: seq<Material>, venue: nat)
    requires UniqueMaterials(ms) && LinesHaveMaterials(r.lines, ms)
    ensures Touches(r, FixIds(MaterialFixes(ms, venue))) <==> UsesMispriced(r, ms, venue)
  {
    forall k | 0 <= k < |r.lines|
      ensures r.lines[k].material in FixIds(MaterialFixes(ms, venue)) <==> IsMispriced(MaterialOf(ms, r.lines[k].material), venue)
    {
      assert r.lines[k] in r.lines;
      IsFixedIff(ms, venue, MaterialOf(ms, r.lines[k].material));
    }
    if UsesMispriced(r, ms, venue) {
      var line, m :| line in r.lines && m in ms && line.material == m.id && IsMispriced(m, venue);
      var k :| 0 <= k < |r.lines| && r.lines[k] == line;
      MaterialIsOnly(ms, m);
      assert r.lines[k].material in FixIds(MaterialFixes(ms, venue));
    }
  }

  lemma RecipeIsRepriced(r: Recipe, after: Recipe, ms: seq<Material>, venue: nat)
    requires UniqueMaterials(ms) && IsRecipe(r, ms)
    requires IsRecipeAfter(r, after, ms, venue, FixIds(MaterialFixes(ms, venue)))
    ensures IsRepriced(r, after, ms, venue)
  {
    TouchesIffUses(r, ms, venue);
    TotalCostIsPrice(r.lines, ms, venue, r.portionYield);
    if r.venue == venue && UsesMispriced(r, ms, venue) {
      forall k | 0 <= k < |r.lines| ensures IsLineRepriced(r.lines[k], after.lines[k], ms, venue, r.portionYield) {
        assert r.lines[k] in r.lines;
        LineCostIsPrice(r.lines[k], ms, venue, r.portionYield);
      }
    }
  }

  /** The three tables after an execution, from the columns before it. */
  lemma RecoveredRows(book: Book, venue: nat)
    requires IsBook(book)
    ensures DividesMaterials(book.materials, Executed(book, venue).materials, venue)
    ensures DividesBatches(book.batches, Executed(book, venue).batches, book.materials, venue)
    ensures RepricesRecipes(book.recipes, Executed(book, venue).recipes, book.materials, venue)
  {
    FixedMaterialsAreDivided(book, venue);
    SharedBatchesAreDivided(book, venue);
    ExecutedRows(book, venue);
    forall k | 0 <= k < |book.recipes| ensures IsRepriced(book.recipes[k], Executed(book, venue).recipes[k], book.materials, venue) {
      assert book.recipes[k] in book.recipes;
      RecipesAfterTransaction(book, venue, k);
      RecipeIsRepriced(book.recipes[k], Executed(book, venue).recipes[k], book.materials, venue);
    }
  }
}
