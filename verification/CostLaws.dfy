/**
 Laws of the cost recovery: what the transaction leaves in every row, recipes recomputed from the
 fixed rows, and how often the recovery has to run.
 */
module CostLaws {
  import opened Options
  import opened Columns
  import opened Units
  import opened Materials
  import opened CostRecovery

  // ----- The cost of a line -----

  lemma PortionsCost(quantity: real, cost: real, portionYield: nat)
    requires portionYield > 0
    ensures PerServing(quantity, cost, portionYield) * portionYield as real == quantity * cost
    ensures PerServing(quantity, cost / 1000.0, portionYield)
         == PerServing(quantity, cost, portionYield) / 1000.0
  {
    var y := portionYield as real;
    assert quantity * (cost / 1000.0) == quantity * cost / 1000.0;
    assert quantity * cost / 1000.0 / y == quantity * cost / y / 1000.0;
  }

  /** The quantity of a line in another unit exists iff the units are compatible, and converts back to the line's. */
  lemma QuantityConvertsBack(line: Line, unit: Unit)
    ensures QuantityIn(line, unit).Some? <==> AreCompatible(line.unit, unit)
    ensures QuantityIn(line, unit).Some? ==> Convert(QuantityIn(line, unit).value, unit, line.unit) == line.quantity
  {
    if AreCompatible(line.unit, unit) {
      ConvertComposes(line.quantity, line.unit, unit, line.unit);
    }
  }

  /**
   A line has a cost iff it has a quantity in the unit of its material.  All portions together then
   cost what that quantity costs, and fixing the material divides the cost by a thousand.
   */
  lemma LineCostMeaning(line: Line, ms: seq<Material>, fixed: set<nat>, portionYield: nat)
    requires portionYield > 0 && HasMaterial(ms, line.material)
    ensures var m, cost := MaterialOf(ms, line.material), LineCost(line, ms, {}, portionYield);
            var quantity := QuantityIn(line, m.unit);
            && (cost.Some? <==> quantity.Some?)
            && (cost.Some? ==> cost.value * portionYield as real == quantity.value * m.cost)
            && LineCost(line, ms, fixed, portionYield) == if cost.Some? && m.id in fixed then Some(cost.value / 1000.0) else cost
  {
    var m := MaterialOf(ms, line.material);
    match QuantityIn(line, m.unit) {
      case Some(quantity) => PortionsCost(quantity, m.cost, portionYield);
      case None =>
    }
  }

  /** A line costs the same in whatever compatible unit it is written. */
  lemma LineCostIgnoresUnit(line: Line, unit: Unit, ms: seq<Material>, fixed: set<nat>, portionYield: nat)
    requires portionYield > 0 && HasMaterial(ms, line.material) && AreCompatible(line.unit, unit)
    ensures LineCost(line.(quantity := Convert(line.quantity, line.unit, unit), unit := unit), ms, fixed, portionYield)
         == LineCost(line, ms, fixed, portionYield)
  {
    var m := MaterialOf(ms, line.material);
    if AreCompatible(unit, m.unit) {
      ConvertComposes(line.quantity, line.unit, unit, m.unit);
    }
  }

  // ----- Row by row -----

  function FixedMaterial(m: Material, venue: nat): Material {
    if NeedsFix(m, venue) then
      var fix := MaterialFixOf(m);
      m.(cost := Stored(fix.newCost, TENTH_MILLI), avgCost := Stored(fix.newAvgCost, TENTH_MILLI))
    else m
  }

  ghost predicate AreMaterialsAfter(ms: seq<Material>, after: seq<Material>, venue: nat, n: nat) {
    && |after| == |ms|
    && forall k :: 0 <= k < |ms| ==> after[k] == if k < n then FixedMaterial(ms[k], venue) else ms[k]
  }

  lemma OneMaterialAfter(ms: seq<Material>, after: seq<Material>, venue: nat, n: nat)
    requires UniqueMaterials(ms) && n < |ms| && AreMaterialsAfter(ms, after, venue, n) && NeedsFix(ms[n], venue)
    ensures AreMaterialsAfter(ms, UpdateMaterial(after, MaterialFixOf(ms[n])), venue, n + 1)
  {
    forall k | 0 <= k < |ms| && k != n ensures after[k].id != ms[n].id {
      assert FixedMaterial(ms[k], venue).id == ms[k].id;
    }
  }

  lemma {:induction false} MaterialsAfter(ms: seq<Material>, venue: nat, n: nat)
    requires UniqueMaterials(ms) && n <= |ms|
    ensures AreMaterialsAfter(ms, UpdateMaterials(ms, MaterialFixes(ms[..n], venue)), venue, n)
    decreases n
  {
    if n == 0 {
    } else {
      var fixes := MaterialFixes(ms[..n - 1], venue);
      MaterialsAfter(ms, venue, n - 1);
      assert ms[..n][..n - 1] == ms[..n - 1];
      if NeedsFix(ms[n - 1], venue) {
        OneMaterialAfter(ms, UpdateMaterials(ms, fixes), venue, n - 1);
        assert (fixes + [MaterialFixOf(ms[n - 1])])[..|fixes|] == fixes;
      } else {
        assert fixes + [] == fixes;
      }
    }
  }

  lemma FixesAre(ms: seq<Material>, venue: nat, fix: MaterialFix)
    ensures fix in MaterialFixes(ms, venue)
       <==> exists m :: m in ms && NeedsFix(m, venue) && fix == MaterialFixOf(m)
    decreases |ms|
  {
    if ms != [] {
      var n := |ms| - 1;
      FixesAre(ms[..n], venue, fix);
      assert ms == ms[..n] + [ms[n]];
    }
  }

  lemma IsFixedIff(ms: seq<Material>, venue: nat, m: Material)
    requires UniqueMaterials(ms) && m in ms
    ensures m.id in FixIds(MaterialFixes(ms, venue)) <==> NeedsFix(m, venue)
  {
    FixesAre(ms, venue, MaterialFixOf(m));
    if m.id in FixIds(MaterialFixes(ms, venue)) {
      var fix :| fix in MaterialFixes(ms, venue) && fix.id == m.id;
      FixesAre(ms, venue, fix);
    }
  }

  ghost predicate SharesSomeOldCost(b: Batch, fixes: seq<MaterialFix>) {
    exists fix :: fix in fixes && SharesOldCost(b, fix)
  }

  ghost function FixedBatch(b: Batch, fixes: seq<MaterialFix>): Batch {
    if SharesSomeOldCost(b, fixes) then b.(cost := Stored(b.cost / 1000.0, TENTH_MILLI)) else b
  }

  /** Rows with the keys of the old ones, and with the batches before `n` divided that share the old cost. */
  ghost predicate AreBatchesDivided(bs: seq<Batch>, before: seq<Batch>, after: seq<Batch>, fix: MaterialFix, n: nat) {
    && |before| == |after| == |bs|
    && forall k :: 0 <= k < |bs| ==>
         after[k] == if k < n && SharesOldCost(bs[k], fix) then before[k].(cost := Stored(bs[k].cost / 1000.0, TENTH_MILLI)) else before[k]
  }

  ghost predicate SameKeys(bs: seq<Batch>, before: seq<Batch>) {
    |before| == |bs| && forall k :: 0 <= k < |bs| ==> before[k].id == bs[k].id
  }

  lemma NextBatchDivided(bs: seq<Batch>, before: seq<Batch>, after: seq<Batch>, after': seq<Batch>, fix: MaterialFix, n: nat)
    requires UniqueBatches(bs) && n < |bs| && SameKeys(bs, before) && AreBatchesDivided(bs, before, after, fix, n)
    requires after' == if SharesOldCost(bs[n], fix) then UpdateBatch(after, BatchFix(bs[n].id, bs[n].cost / 1000.0)) else after
    ensures AreBatchesDivided(bs, before, after', fix, n + 1)
  {
  }

  lemma UpdateOneMoreBatch(bs: seq<Batch>, fixes: seq<BatchFix>, fix: BatchFix)
    ensures UpdateBatches(bs, fixes + [fix]) == UpdateBatch(UpdateBatches(bs, fixes), fix)
  {
    assert (fixes + [fix])[..|fixes|] == fixes;
  }

  /** The updates of two lists of fixes, one after the other. */
  lemma {:induction false} UpdateBatchesConcat(bs: seq<Batch>, earlier: seq<BatchFix>, more: seq<BatchFix>)
    ensures UpdateBatches(bs, earlier + more) == UpdateBatches(UpdateBatches(bs, earlier), more)
    decreases |more|
  {
    if more == [] {
      assert earlier + more == earlier;
    } else {
      var n := |more| - 1;
      UpdateBatchesConcat(bs, earlier, more[..n]);
      assert earlier + more == (earlier + more[..n]) + [more[n]];
      UpdateOneMoreBatch(bs, earlier + more[..n], more[n]);
    }
  }

  lemma UpdateBatchesStep(bs: seq<Batch>, before: seq<Batch>, fix: MaterialFix, n: nat)
    requires n < |bs|
    ensures UpdateBatches(before, BatchFixesOf(fix, bs[..n + 1]))
         == var after := UpdateBatches(before, BatchFixesOf(fix, bs[..n]));
            if SharesOldCost(bs[n], fix) then UpdateBatch(after, BatchFix(bs[n].id, bs[n].cost / 1000.0)) else after
  {
    var fixes := BatchFixesOf(fix, bs[..n]);
    assert bs[..n + 1][..n] == bs[..n];
    if SharesOldCost(bs[n], fix) {
      UpdateOneMoreBatch(before, fixes, BatchFix(bs[n].id, bs[n].cost / 1000.0));
    } else {
      assert fixes + [] == fixes;
    }
  }

  lemma {:induction false} BatchesAfterOne(bs: seq<Batch>, before: seq<Batch>, fix: MaterialFix, n: nat)
    requires UniqueBatches(bs) && n <= |bs| && SameKeys(bs, before)
    ensures AreBatchesDivided(bs, before, UpdateBatches(before, BatchFixesOf(fix, bs[..n])), fix, n)
    decreases n
  {
    if n == 0 {
    } else {
      BatchesAfterOne(bs, before, fix, n - 1);
      UpdateBatchesStep(bs, before, fix, n - 1);
      NextBatchDivided(bs, before, UpdateBatches(before, BatchFixesOf(fix, bs[..n - 1])),
                       UpdateBatches(before, BatchFixesOf(fix, bs[..n])), fix, n - 1);
    }
  }

  lemma FixedBatchStep(b: Batch, fixes: seq<MaterialFix>, fix: MaterialFix)
    ensures FixedBatch(b, fixes + [fix]) == if SharesOldCost(b, fix) then b.(cost := Stored(b.cost / 1000.0, TENTH_MILLI)) else FixedBatch(b, fixes)
  {
    assert fix in fixes + [fix];
    assert forall other :: other in fixes + [fix] <==> other in fixes || other == fix;
  }

  lemma {:induction false} BatchesAfter(bs: seq<Batch>, fixes: seq<MaterialFix>)
    requires UniqueBatches(bs)
    ensures |UpdateBatches(bs, BatchFixes(fixes, bs))| == |bs|
    ensures forall k :: 0 <= k < |bs| ==> UpdateBatches(bs, BatchFixes(fixes, bs))[k] == FixedBatch(bs[k], fixes)
    decreases |fixes|
  {
    if fixes == [] {
    } else {
      var n := |fixes| - 1;
      BatchesAfter(bs, fixes[..n]);
      UpdateBatchesConcat(bs, BatchFixes(fixes[..n], bs), BatchFixesOf(fixes[n], bs));
      BatchesAfterOne(bs, UpdateBatches(bs, BatchFixes(fixes[..n], bs)), fixes[n], |bs|);
      assert bs[..|bs|] == bs;
      assert fixes == fixes[..n] + [fixes[n]];
      forall k | 0 <= k < |bs| ensures UpdateBatches(bs, BatchFixes(fixes, bs))[k] == FixedBatch(bs[k], fixes) {
        FixedBatchStep(bs[k], fixes[..n], fixes[n]);
      }
    }
  }

  function FixedLine(line: Line, ms: seq<Material>, fixed: set<nat>, portionYield: nat): Line
    requires portionYield > 0 && HasMaterial(ms, line.material)
  {
    if LineNeedsFix(line, ms, fixed, portionYield)
    then line.(costPerServing := Some(Stored(LineCost(line, ms, fixed, portionYield).value, TENTH_MILLI)))
    else line
  }

  ghost predicate AreLinesFixed(lines: seq<Line>, after: seq<Line>, ms: seq<Material>, fixed: set<nat>, portionYield: nat, n: nat)
    requires portionYield > 0 && LinesHaveMaterials(lines, ms)
  {
    && |after| == |lines|
    && forall k :: 0 <= k < |lines| ==> after[k] == if k < n then FixedLine(lines[k], ms, fixed, portionYield) else lines[k]
  }

  lemma OneLineFixed(lines: seq<Line>, after: seq<Line>, ms: seq<Material>, fixed: set<nat>, portionYield: nat, n: nat, fix: LineFix)
    requires portionYield > 0 && LinesHaveMaterials(lines, ms) && UniqueLines(lines) && n < |lines|
    requires AreLinesFixed(lines, after, ms, fixed, portionYield, n) && LineNeedsFix(lines[n], ms, fixed, portionYield)
    requires fix == LineFix(lines[n].id, LineCost(lines[n], ms, fixed, portionYield).value)
    ensures AreLinesFixed(lines, UpdateLine(after, fix), ms, fixed, portionYield, n + 1)
  {
    forall k | 0 <= k < |lines| && k != n ensures after[k].id != fix.line {
      assert FixedLine(lines[k], ms, fixed, portionYield).id == lines[k].id;
    }
  }

  lemma LineFixesStep(lines: seq<Line>, ms: seq<Material>, fixed: set<nat>, portionYield: nat, n: nat)
    requires portionYield > 0 && LinesHaveMaterials(lines, ms) && n < |lines|
    ensures LineFixes(lines[..n + 1], ms, fixed, portionYield)
         == LineFixes(lines[..n], ms, fixed, portionYield)
            + if LineNeedsFix(lines[n], ms, fixed, portionYield) then [LineFix(lines[n].id, LineCost(lines[n], ms, fixed, portionYield).value)] else []
  {
    assert lines[..n + 1][..n] == lines[..n];
  }

  lemma TotalCostStep(lines: seq<Line>, ms: seq<Material>, fixed: set<nat>, portionYield: nat, n: nat)
    requires portionYield > 0 && LinesHaveMaterials(lines, ms) && n < |lines|
    ensures TotalCost(lines[..n + 1], ms, fixed, portionYield)
         == TotalCost(lines[..n], ms, fixed, portionYield) + OrZero(LineCost(lines[n], ms, fixed, portionYield))
  {
    assert lines[..n + 1][..n] == lines[..n];
  }

  lemma UpdateOneMoreLine(lines: seq<Line>, fixes: seq<LineFix>, fix: LineFix)
    ensures UpdateLines(lines, fixes + [fix]) == UpdateLine(UpdateLines(lines, fixes), fix)
  {
    assert (fixes + [fix])[..|fixes|] == fixes;
  }

  lemma {:induction false} LinesAfter(lines: seq<Line>, ms: seq<Material>, fixed: set<nat>, portionYield: nat, n: nat)
    requires portionYield > 0 && LinesHaveMaterials(lines, ms) && UniqueLines(lines) && n <= |lines|
    ensures AreLinesFixed(lines, UpdateLines(lines, LineFixes(lines[..n], ms, fixed, portionYield)), ms, fixed, portionYield, n)
    decreases n
  {
    if n == 0 {
    } else {
      var fixes := LineFixes(lines[..n - 1], ms, fixed, portionYield);
      LinesAfter(lines, ms, fixed, portionYield, n - 1);
      LineFixesStep(lines, ms, fixed, portionYield, n - 1);
      if LineNeedsFix(lines[n - 1], ms, fixed, portionYield) {
        var fix := LineFix(lines[n - 1].id, LineCost(lines[n - 1], ms, fixed, portionYield).value);
        UpdateOneMoreLine(lines, fixes, fix);
        OneLineFixed(lines, UpdateLines(lines, fixes), ms, fixed, portionYield, n - 1, fix);
      } else {
        assert fixes + [] == fixes;
      }
    }
  }

  function RecipeAfter(r: Recipe, ms: seq<Material>, venue: nat, fixed: set<nat>): Recipe
    requires IsRecipe(r, ms)
  {
    if RecipeNeedsFix(r, ms, venue, fixed) then FixedRecipe(r, RecipeFixOf(r, ms, fixed)) else r
  }

  lemma UpdateOneMore(rs: seq<Recipe>, fixes: seq<RecipeFix>, fix: RecipeFix)
    ensures UpdateRecipes(rs, fixes + [fix]) == UpdateRecipe(UpdateRecipes(rs, fixes), fix)
  {
    assert (fixes + [fix])[..|fixes|] == fixes;
  }

  lemma UpdateRecipesStep(rs: seq<Recipe>, ms: seq<Material>, venue: nat, fixed: set<nat>, n: nat)
    requires n < |rs| && forall r :: r in rs ==> IsRecipe(r, ms)
    ensures UpdateRecipes(rs, RecipeFixes(rs[..n + 1], ms, venue, fixed))
         == var after := UpdateRecipes(rs, RecipeFixes(rs[..n], ms, venue, fixed));
            if RecipeNeedsFix(rs[n], ms, venue, fixed) then UpdateRecipe(after, RecipeFixOf(rs[n], ms, fixed)) else after
  {
    var fixes := RecipeFixes(rs[..n], ms, venue, fixed);
    assert rs[..n + 1][..n] == rs[..n];
    if RecipeNeedsFix(rs[n], ms, venue, fixed) {
      UpdateOneMore(rs, fixes, RecipeFixOf(rs[n], ms, fixed));
    } else {
      assert fixes + [] == fixes;
    }
  }

  ghost predicate AreRecipesAfter(rs: seq<Recipe>, after: seq<Recipe>, ms: seq<Material>, venue: nat, fixed: set<nat>, n: nat)
    requires forall r :: r in rs ==> IsRecipe(r, ms)
  {
    && |after| == |rs|
    && forall k :: 0 <= k < |rs| ==> after[k] == if k < n then RecipeAfter(rs[k], ms, venue, fixed) else rs[k]
  }

  lemma NextRecipeAfter(rs: seq<Recipe>, after: seq<Recipe>, after': seq<Recipe>, ms: seq<Material>, venue: nat, fixed: set<nat>, n: nat)
    requires UniqueRecipes(rs) && n < |rs| && forall r :: r in rs ==> IsRecipe(r, ms)
    requires AreRecipesAfter(rs, after, ms, venue, fixed, n)
    requires after' == if RecipeNeedsFix(rs[n], ms, venue, fixed) then UpdateRecipe(after, RecipeFixOf(rs[n], ms, fixed)) else after
    ensures AreRecipesAfter(rs, after', ms, venue, fixed, n + 1)
  {
  }

  lemma {:induction false} RecipesAfter(rs: seq<Recipe>, ms: seq<Material>, venue: nat, fixed: set<nat>, n: nat)
    requires UniqueRecipes(rs) && n <= |rs| && forall r :: r in rs ==> IsRecipe(r, ms)
    ensures AreRecipesAfter(rs, UpdateRecipes(rs, RecipeFixes(rs[..n], ms, venue, fixed)), ms, venue, fixed, n)
    decreases n
  {
    if n == 0 {
    } else {
      RecipesAfter(rs, ms, venue, fixed, n - 1);
      UpdateRecipesStep(rs, ms, venue, fixed, n - 1);
      NextRecipeAfter(rs, UpdateRecipes(rs, RecipeFixes(rs[..n - 1], ms, venue, fixed)),
                      UpdateRecipes(rs, RecipeFixes(rs[..n], ms, venue, fixed)), ms, venue, fixed, n - 1);
    }
  }

  /** Every row with its own fix. */
  ghost function RowByRow(book: Book, venue: nat): Book
    requires IsBook(book)
  {
    var fixes := MaterialFixes(book.materials, venue);
    assert forall k :: 0 <= k < |book.recipes| ==> book.recipes[k] in book.recipes;
    Book(seq(|book.materials|, k requires 0 <= k < |book.materials| => FixedMaterial(book.materials[k], venue)),
         seq(|book.batches|, k requires 0 <= k < |book.batches| => FixedBatch(book.batches[k], fixes)),
         seq(|book.recipes|, k requires 0 <= k < |book.recipes| && IsRecipe(book.recipes[k], book.materials) =>
               RecipeAfter(book.recipes[k], book.materials, venue, FixIds(fixes))))
  }

  /** The whole transaction, row by row. */
  lemma ExecutedRows(book: Book, venue: nat)
    requires IsBook(book)
    ensures Executed(book, venue) == RowByRow(book, venue)
  {
    var fixes, after, rows := MaterialFixes(book.materials, venue), Executed(book, venue), RowByRow(book, venue);
    assert after.materials == rows.materials by {
      MaterialsAfter(book.materials, venue, |book.materials|);
      assert book.materials[..|book.materials|] == book.materials;
    }
    assert after.batches == rows.batches by {
      BatchesAfter(book.batches, fixes);
    }
    assert after.recipes == rows.recipes by {
      RecipesAfter(book.recipes, book.materials, venue, FixIds(fixes), |book.recipes|);
      assert book.recipes[..|book.recipes|] == book.recipes;
    }
  }

  // ----- Batches -----

  /** Which batches of a fixed material are divided: exactly the active ones at its old cost. */
  lemma SharesOldCostIff(ms: seq<Material>, venue: nat, m: Material, b: Batch)
    requires UniqueMaterials(ms) && m in ms && NeedsFix(m, venue) && b.material == m.id
    ensures SharesSomeOldCost(b, MaterialFixes(ms, venue)) <==> b.active && b.cost == m.cost
  {
    FixesAre(ms, venue, MaterialFixOf(m));
    assert SharesOldCost(b, MaterialFixOf(m)) <==> b.active && b.cost == m.cost;
    if SharesSomeOldCost(b, MaterialFixes(ms, venue)) {
      var fix :| fix in MaterialFixes(ms, venue) && SharesOldCost(b, fix);
      FixesAre(ms, venue, fix);
    }
  }

  /**
   An active batch of a normalised material, at the material's old cost or at its divided one,
   ends at the material's new cost.
   */
  lemma BatchEndsAtNewCost(book: Book, venue: nat, k: nat, m: Material)
    requires IsBook(book) && k < |book.batches|
    requires m in book.materials && NeedsFix(m, venue)
    ensures |Executed(book, venue).batches| == |book.batches|
    ensures var b, newCost := book.batches[k], FixedMaterial(m, venue).cost;
            b.material == m.id && b.active && (b.cost == m.cost || b.cost == m.cost / 1000.0 || b.cost == newCost)
            ==> Executed(book, venue).batches[k].cost == newCost
  {
    var b := book.batches[k];
    ExecutedRows(book, venue);
    assert b in book.batches;
    if b.material == m.id {
      SharesOldCostIff(book.materials, venue, m, b);
    }
    StoredKeepsIffFits(b.cost, TENTH_MILLI);
  }

  // ----- Recipes: the plan, written -----

  lemma {:induction false} NoLineFixes(lines: seq<Line>, ms: seq<Material>, fixed: set<nat>, portionYield: nat)
    requires portionYield > 0 && LinesHaveMaterials(lines, ms)
    requires LineFixes(lines, ms, fixed, portionYield) == []
    ensures forall line :: line in lines ==> !LineNeedsFix(line, ms, fixed, portionYield)
    decreases |lines|
  {
    if lines == [] {
    } else {
      var n := |lines| - 1;
      NoLineFixes(lines[..n], ms, fixed, portionYield);
      forall line | line in lines ensures !LineNeedsFix(line, ms, fixed, portionYield) {
        var k :| 0 <= k < |lines| && lines[k] == line;
        if k < n {
          assert lines[..n][k] in lines[..n];
        }
      }
    }
  }

  /** The line's stored cost is the planned one; an incompatible line is left alone. */
  ghost predicate IsLineAfter(line: Line, after: Line, ms: seq<Material>, fixed: set<nat>, portionYield: nat)
    requires portionYield > 0 && HasMaterial(ms, line.material)
  {
    match LineCost(line, ms, fixed, portionYield)
    case Some(cost) => after == line.(costPerServing := after.costPerServing) && OrZero(after.costPerServing) == Stored(cost, TENTH_MILLI)
    case None => after == line
  }

  lemma FixedLineIsAfter(line: Line, ms: seq<Material>, fixed: set<nat>, portionYield: nat)
    requires portionYield > 0 && HasMaterial(ms, line.material) && Fits(OrZero(line.costPerServing), TENTH_MILLI)
    ensures IsLineAfter(line, FixedLine(line, ms, fixed, portionYield), ms, fixed, portionYield)
  {
    StoredKeepsIffFits(OrZero(line.costPerServing), TENTH_MILLI);
  }

  ghost predicate AreLinesAfter(lines: seq<Line>, after: seq<Line>, ms: seq<Material>, fixed: set<nat>, portionYield: nat)
    requires portionYield > 0 && LinesHaveMaterials(lines, ms)
  {
    && |after| == |lines|
    && forall j :: 0 <= j < |lines| ==> IsLineAfter(lines[j], after[j], ms, fixed, portionYield)
  }

  /** A recipe of the venue that touches a fixed material ends with the planned total and line costs; every other recipe is unchanged. */
  ghost predicate IsRecipeAfter(r: Recipe, after: Recipe, ms: seq<Material>, venue: nat, fixed: set<nat>)
    requires IsRecipe(r, ms)
  {
    if r.venue == venue && Touches(r, fixed) then
      && after == r.(totalCost := after.totalCost, lines := after.lines)
      && after.totalCost == Stored(TotalCost(r.lines, ms, fixed, r.portionYield), TENTH_MILLI)
      && AreLinesAfter(r.lines, after.lines, ms, fixed, r.portionYield)
    else after == r
  }

  lemma RecipeLinesAfter(r: Recipe, ms: seq<Material>, fixed: set<nat>)
    requires IsRecipe(r, ms) && UniqueLines(r.lines)
    requires forall line :: line in r.lines ==> Fits(OrZero(line.costPerServing), TENTH_MILLI)
    ensures AreLinesAfter(r.lines, UpdateLines(r.lines, LineFixes(r.lines, ms, fixed, r.portionYield)), ms, fixed, r.portionYield)
  {
    LinesAfter(r.lines, ms, fixed, r.portionYield, |r.lines|);
    assert r.lines[..|r.lines|] == r.lines;
    forall j | 0 <= j < |r.lines|
      ensures IsLineAfter(r.lines[j], FixedLine(r.lines[j], ms, fixed, r.portionYield), ms, fixed, r.portionYield)
    {
      FixedLineIsAfter(r.lines[j], ms, fixed, r.portionYield);
    }
  }

  lemma RecipeEndsAsPlanned(r: Recipe, ms: seq<Material>, venue: nat, fixed: set<nat>)
    requires IsRecipe(r, ms) && UniqueLines(r.lines) && Fits(r.totalCost, TENTH_MILLI)
    requires forall line :: line in r.lines ==> Fits(OrZero(line.costPerServing), TENTH_MILLI)
    ensures IsRecipeAfter(r, RecipeAfter(r, ms, venue, fixed), ms, venue, fixed)
  {
    RecipeLinesAfter(r, ms, fixed);
    StoredKeepsIffFits(r.totalCost, TENTH_MILLI);
    if r.venue == venue && Touches(r, fixed) && !RecipeNeedsFix(r, ms, venue, fixed) {
      assert UpdateLines(r.lines, []) == r.lines;
    }
  }

  // ----- Recipes: the plan against recomputing from the fixed rows -----

  /** What rounding the new material costs adds to the cost of a line. */
  function LineRounding(line: Line, ms: seq<Material>, fixed: set<nat>, portionYield: nat): real
    requires portionYield > 0 && HasMaterial(ms, line.material)
  {
    var m := MaterialOf(ms, line.material);
    var quantity := QuantityIn(line, m.unit);
    if quantity.Some? && m.id in fixed
    then PerServing(quantity.value, Stored(m.cost / 1000.0, TENTH_MILLI), portionYield) - PerServing(quantity.value, m.cost / 1000.0, portionYield)
    else 0.0
  }

  function CostRounding(lines: seq<Line>, ms: seq<Material>, fixed: set<nat>, portionYield: nat): real
    requires portionYield > 0 && LinesHaveMaterials(lines, ms)
  {
    if lines == [] then 0.0
    else
      var n := |lines| - 1;
      CostRounding(lines[..n], ms, fixed, portionYield) + LineRounding(lines[n], ms, fixed, portionYield)
  }

  ghost predicate AreFixedMaterials(ms: seq<Material>, ms': seq<Material>, venue: nat) {
    && UniqueMaterials(ms) && |ms'| == |ms|
    && forall k :: 0 <= k < |ms| ==> ms'[k] == FixedMaterial(ms[k], venue)
  }

  lemma FixedMaterialOf(ms: seq<Material>, ms': seq<Material>, venue: nat, id: nat)
    requires AreFixedMaterials(ms, ms', venue) && HasMaterial(ms, id)
    ensures UniqueMaterials(ms') && HasMaterial(ms', id)
    ensures MaterialOf(ms', id) == FixedMaterial(MaterialOf(ms, id), venue)
  {
    var m := MaterialOf(ms, id);
    var k :| 0 <= k < |ms| && ms[k] == m;
    assert ms'[k].id == id;
    MaterialIsOnly(ms', ms'[k]);
  }

  lemma LineRecomputed(line: Line, after: Line, ms: seq<Material>, ms': seq<Material>, venue: nat, portionYield: nat)
    requires portionYield > 0 && AreFixedMaterials(ms, ms', venue) && HasMaterial(ms, line.material)
    requires after == line.(costPerServing := after.costPerServing)
    ensures HasMaterial(ms', after.material)
    ensures var fixed := FixIds(MaterialFixes(ms, venue));
            OrZero(LineCost(after, ms', {}, portionYield)) == OrZero(LineCost(line, ms, fixed, portionYield)) + LineRounding(line, ms, fixed, portionYield)
  {
    var m := MaterialOf(ms, line.material);
    FixedMaterialOf(ms, ms', venue, line.material);
    IsFixedIff(ms, venue, m);
    assert QuantityIn(after, m.unit) == QuantityIn(line, m.unit);
  }

  ghost predicate SameButCosts(lines: seq<Line>, after: seq<Line>) {
    |after| == |lines| && forall j :: 0 <= j < |lines| ==> after[j] == lines[j].(costPerServing := after[j].costPerServing)
  }

  lemma LinesKeepMaterials(lines: seq<Line>, after: seq<Line>, ms: seq<Material>, ms': seq<Material>, venue: nat)
    requires AreFixedMaterials(ms, ms', venue) && LinesHaveMaterials(lines, ms) && SameButCosts(lines, after)
    ensures LinesHaveMaterials(after, ms')
  {
    forall line | line in after ensures HasMaterial(ms', line.material) {
      var j :| 0 <= j < |after| && after[j] == line;
      assert lines[j] in lines;
      FixedMaterialOf(ms, ms', venue, line.material);
    }
  }

  /** The total recomputed from the fixed rows: the planned total, and the rounding of the new material costs. */
  lemma {:induction false} TotalRecomputed(lines: seq<Line>, after: seq<Line>, ms: seq<Material>, ms': seq<Material>, venue: nat, portionYield: nat)
    requires portionYield > 0 && AreFixedMaterials(ms, ms', venue) && LinesHaveMaterials(lines, ms)
    requires LinesHaveMaterials(after, ms') && SameButCosts(lines, after)
    ensures var fixed := FixIds(MaterialFixes(ms, venue));
            TotalCost(after, ms', {}, portionYield) == TotalCost(lines, ms, fixed, portionYield) + CostRounding(lines, ms, fixed, portionYield)
    decreases |lines|
  {
    if lines == [] {
    } else {
      var n := |lines| - 1;
      TotalRecomputed(lines[..n], after[..n], ms, ms', venue, portionYield);
      LineRecomputed(lines[n], after[n], ms, ms', venue, portionYield);
    }
  }

  /** The converted quantity of a line of a fixed material, without sign. */
  function FixedQuantityOf(line: Line, ms: seq<Material>, fixed: set<nat>): real
    requires HasMaterial(ms, line.material)
  {
    var m := MaterialOf(ms, line.material);
    var quantity := QuantityIn(line, m.unit);
    if quantity.Some? && m.id in fixed then Abs(quantity.value) else 0.0
  }

  function FixedQuantity(lines: seq<Line>, ms: seq<Material>, fixed: set<nat>): real
    requires LinesHaveMaterials(lines, ms)
  {
    if lines == [] then 0.0
    else FixedQuantity(lines[..|lines| - 1], ms, fixed) + FixedQuantityOf(lines[|lines| - 1], ms, fixed)
  }

  /** Half a unit of the fourth decimal per unit of quantity and portion. */
  function RoundingBound(quantity: real, portionYield: nat): real
    requires portionYield > 0
  {
    0.00005 * quantity / portionYield as real
  }

  lemma ScaleMonotone(x: real, a: real, b: real)
    requires x >= 0.0 && a <= b
    ensures x * a <= x * b
  {
  }

  lemma ProductBounds(x: real, e: real, k: real)
    requires -k <= e <= k
    ensures -(k * Abs(x)) <= x * e <= k * Abs(x)
  {
    if x >= 0.0 {
      ScaleMonotone(x, e, k);
      ScaleMonotone(x, -k, e);
    } else {
      ScaleMonotone(-x, e, k);
      ScaleMonotone(-x, -k, e);
    }
  }

  lemma DivideBounds(x: real, b: real, y: real)
    requires -b <= x <= b && y > 0.0
    ensures Abs(x / y) <= b / y
  {
    DivideMonotone(x, b, y);
    DivideMonotone(-b, x, y);
    assert (-b) / y == -(b / y);
  }

  lemma DivideMonotone(a: real, b: real, y: real)
    requires a <= b && y > 0.0
    ensures a / y <= b / y
  {
  }

  lemma SumDivide(a: real, b: real, y: real)
    requires y > 0.0
    ensures a / y + b / y == (a + b) / y
  {
  }

  lemma DifferenceDivide(quantity: real, a: real, b: real, y: real)
    requires y > 0.0
    ensures quantity * b / y - quantity * a / y == quantity * (b - a) / y
  {
    SumDivide(quantity * (b - a), quantity * a, y);
    assert quantity * (b - a) + quantity * a == quantity * b;
  }

  lemma PerServingBound(quantity: real, a: real, b: real, portionYield: nat)
    requires portionYield > 0 && Abs(b - a) * TENTH_MILLI <= 0.5
    ensures Abs(PerServing(quantity, b, portionYield) - PerServing(quantity, a, portionYield)) <= RoundingBound(Abs(quantity), portionYield)
  {
    var y := portionYield as real;
    assert -0.00005 <= b - a <= 0.00005;
    ProductBounds(quantity, b - a, 0.00005);
    DivideBounds(quantity * (b - a), 0.00005 * Abs(quantity), y);
    DifferenceDivide(quantity, a, b, y);
  }

  lemma LineRoundingIsBounded(line: Line, ms: seq<Material>, fixed: set<nat>, portionYield: nat)
    requires portionYield > 0 && HasMaterial(ms, line.material)
    ensures Abs(LineRounding(line, ms, fixed, portionYield)) <= RoundingBound(FixedQuantityOf(line, ms, fixed), portionYield)
  {
    var m := MaterialOf(ms, line.material);
    var quantity := QuantityIn(line, m.unit);
    if quantity.Some? && m.id in fixed {
      StoredError(m.cost / 1000.0, TENTH_MILLI);
      PerServingBound(quantity.value, m.cost / 1000.0, Stored(m.cost / 1000.0, TENTH_MILLI), portionYield);
    }
  }

  lemma BoundsAdd(sum: real, term: real, done: real, more: real, portionYield: nat)
    requires portionYield > 0
    requires Abs(sum) <= RoundingBound(done, portionYield) && Abs(term) <= RoundingBound(more, portionYield)
    ensures Abs(sum + term) <= RoundingBound(done + more, portionYield)
  {
    SumDivide(0.00005 * done, 0.00005 * more, portionYield as real);
  }

  /** What the rounding of the material costs adds to a recipe is bounded by its quantities of fixed materials. */
  lemma {:induction false} CostRoundingIsBounded(lines: seq<Line>, ms: seq<Material>, fixed: set<nat>, portionYield: nat)
    requires portionYield > 0 && LinesHaveMaterials(lines, ms)
    ensures Abs(CostRounding(lines, ms, fixed, portionYield)) <= RoundingBound(FixedQuantity(lines, ms, fixed), portionYield)
    decreases |lines|
  {
    if lines == [] {
    } else {
      var n := |lines| - 1;
      CostRoundingIsBounded(lines[..n], ms, fixed, portionYield);
      LineRoundingIsBounded(lines[n], ms, fixed, portionYield);
      var sum, term := CostRounding(lines[..n], ms, fixed, portionYield), LineRounding(lines[n], ms, fixed, portionYield);
      var done, more := FixedQuantity(lines[..n], ms, fixed), FixedQuantityOf(lines[n], ms, fixed);
      BoundsAdd(sum, term, done, more, portionYield);
      assert CostRounding(lines, ms, fixed, portionYield) == sum + term;
      assert FixedQuantity(lines, ms, fixed) == done + more;
    }
  }

  /** New costs of at most four decimals leave nothing to round. */
  lemma {:induction false} NoCostRounding(lines: seq<Line>, ms: seq<Material>, fixed: set<nat>, portionYield: nat)
    requires portionYield > 0 && LinesHaveMaterials(lines, ms)
    requires forall m :: m in ms && m.id in fixed ==> Fits(m.cost / 1000.0, TENTH_MILLI)
    ensures CostRounding(lines, ms, fixed, portionYield) == 0.0
    decreases |lines|
  {
    if lines == [] {
    } else {
      var n := |lines| - 1;
      var m := MaterialOf(ms, lines[n].material);
      NoCostRounding(lines[..n], ms, fixed, portionYield);
      StoredKeepsIffFits(m.cost / 1000.0, TENTH_MILLI);
    }
  }
}
