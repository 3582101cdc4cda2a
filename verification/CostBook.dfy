/** The cost recovery script: its planning loops, and the transaction that applies the plans. */
module CostBook {
  import opened Options
  import opened Units
  import opened Materials
  import opened CostRecovery
  import opened CostLaws
  import opened CostFixedPoint
  import opened CostRows

  class Database {
    var materials: seq<Material>
    var batches: seq<Batch>
    var recipes: seq<Recipe>

    constructor (book: Book)
      ensures Contents() == book
    {
      materials, batches, recipes := book.materials, book.batches, book.recipes;
    }

    ghost function Contents(): Book
      reads this
    {
      Book(materials, batches, recipes)
    }

    ghost predicate Valid()
      reads this
    {
      IsBook(Contents())
    }

    method PlanBatchFixesOf(fix: MaterialFix) returns (fixes: seq<BatchFix>)
      ensures fixes == BatchFixesOf(fix, batches)
    {
      fixes := [];
      for i := 0 to |batches|
        invariant fixes == BatchFixesOf(fix, batches[..i])
      {
        var b := batches[i];
        assert batches[..i + 1][..i] == batches[..i];
        if b.material == fix.id && b.active {
          var matchesBuggy := b.cost == fix.oldCost;
          var matchesAlreadyFixed := b.cost == fix.newCost;
          if matchesBuggy && !matchesAlreadyFixed {
            fixes := fixes + [BatchFix(b.id, b.cost / 1000.0)];
          }
        }
      }
      assert batches[..|batches|] == batches;
    }

    method PlanBatchFixes(materialFixes: seq<MaterialFix>) returns (fixes: seq<BatchFix>)
      ensures fixes == BatchFixes(materialFixes, batches)
    {
      fixes := [];
      for i := 0 to |materialFixes|
        invariant fixes == BatchFixes(materialFixes[..i], batches)
      {
        assert materialFixes[..i + 1][..i] == materialFixes[..i];
        var more := PlanBatchFixesOf(materialFixes[i]);
        fixes := fixes + more;
      }
      assert materialFixes[..|materialFixes|] == materialFixes;
    }

    /** The post-fix cost of one line; none when its unit is incompatible. */
    method CostOfLine(line: Line, fixed: set<nat>, portionYield: nat) returns (newCost: Option<real>)
      requires portionYield > 0 && HasMaterial(materials, line.material)
      ensures newCost == LineCost(line, materials, fixed, portionYield)
    {
      var m := MaterialOf(materials, line.material);
      var effectiveCost := if m.id in fixed then m.cost / 1000.0 else m.cost;
      var quantity: real;
      if line.unit == m.unit {
        quantity := line.quantity;
      } else if AreCompatible(line.unit, m.unit) {
        quantity := Convert(line.quantity, line.unit, m.unit);
      } else {
        return None;
      }
      newCost := Some(PerServing(quantity, effectiveCost, portionYield));
    }

    /** The inner loop over the lines of one recipe: its new total and the lines to update. */
    method PlanLines(r: Recipe, fixed: set<nat>) returns (newTotal: real, lineFixes: seq<LineFix>)
      requires IsRecipe(r, materials)
      ensures newTotal == TotalCost(r.lines, materials, fixed, r.portionYield)
      ensures lineFixes == LineFixes(r.lines, materials, fixed, r.portionYield)
    {
      newTotal, lineFixes := 0.0, [];
      for i := 0 to |r.lines|
        invariant newTotal == TotalCost(r.lines[..i], materials, fixed, r.portionYield)
        invariant lineFixes == LineFixes(r.lines[..i], materials, fixed, r.portionYield)
      {
        var line := r.lines[i];
        LineFixesStep(r.lines, materials, fixed, r.portionYield, i);
        TotalCostStep(r.lines, materials, fixed, r.portionYield, i);
        var newCost := CostOfLine(line, fixed, r.portionYield);
        if newCost.None? {
          continue;
        }
        newTotal := newTotal + newCost.value;
        if newCost.value != OrZero(line.costPerServing) {
          lineFixes := lineFixes + [LineFix(line.id, newCost.value)];
        }
      }
      assert r.lines[..|r.lines|] == r.lines;
    }

    method PlanRecipeFixes(venue: nat, fixed: set<nat>) returns (fixes: seq<RecipeFix>)
      requires forall r :: r in recipes ==> IsRecipe(r, materials)
      ensures fixes == RecipeFixes(recipes, materials, venue, fixed)
    {
      fixes := [];
      for i := 0 to |recipes|
        invariant fixes == RecipeFixes(recipes[..i], materials, venue, fixed)
      {
        var r := recipes[i];
        assert recipes[..i + 1][..i] == recipes[..i];
        if r.venue == venue && Touches(r, fixed) {
          var newTotal, lineFixes := PlanLines(r, fixed);
          if newTotal != r.totalCost || |lineFixes| > 0 {
            fixes := fixes + [RecipeFix(r.id, newTotal, lineFixes)];
          }
        }
      }
      assert recipes[..|recipes|] == recipes;
    }

    /** The transaction: materials, then batches, then recipes. */
    method Apply(materialFixes: seq<MaterialFix>, batchFixes: seq<BatchFix>, recipeFixes: seq<RecipeFix>)
      modifies this
      ensures materials == UpdateMaterials(old(materials), materialFixes)
      ensures batches == UpdateBatches(old(batches), batchFixes)
      ensures recipes == UpdateRecipes(old(recipes), recipeFixes)
    {
      for i := 0 to |materialFixes|
        invariant materials == UpdateMaterials(old(materials), materialFixes[..i])
        invariant batches == old(batches) && recipes == old(recipes)
      {
        assert materialFixes[..i + 1][..i] == materialFixes[..i];
        materials := UpdateMaterial(materials, materialFixes[i]);
      }
      assert materialFixes[..|materialFixes|] == materialFixes;
      for i := 0 to |batchFixes|
        invariant batches == UpdateBatches(old(batches), batchFixes[..i])
        invariant materials == UpdateMaterials(old(materials), materialFixes) && recipes == old(recipes)
      {
        assert batchFixes[..i + 1][..i] == batchFixes[..i];
        batches := UpdateBatch(batches, batchFixes[i]);
      }
      assert batchFixes[..|batchFixes|] == batchFixes;
      for i := 0 to |recipeFixes|
        invariant recipes == UpdateRecipes(old(recipes), recipeFixes[..i])
        invariant materials == UpdateMaterials(old(materials), materialFixes) && batches == UpdateBatches(old(batches), batchFixes)
      {
        assert recipeFixes[..i + 1][..i] == recipeFixes[..i];
        recipes := UpdateRecipe(recipes, recipeFixes[i]);
      }
      assert recipeFixes[..|recipeFixes|] == recipeFixes;
    }

    /** Plans everything from the rows as they are; an execution then writes all of it, a dry run none. */
    method Run(venue: nat, dryRun: bool)
      requires Valid()
      modifies this
      ensures Valid()
      ensures !dryRun ==> DividesMaterials(old(materials), materials, venue)
      ensures !dryRun ==> DividesBatches(old(batches), batches, old(materials), venue)
      ensures !dryRun ==> RepricesRecipes(old(recipes), recipes, old(materials), venue)
      ensures Contents() == if dryRun then old(Contents()) else Executed(old(Contents()), venue)
    {
      var materialFixes := MaterialFixes(materials, venue);
      var batchFixes := PlanBatchFixes(materialFixes);
      var recipeFixes := PlanRecipeFixes(venue, FixIds(materialFixes));
      if !dryRun {
        ExecutedKeepsBook(Contents(), venue);
        RecoveredRows(Contents(), venue);
        Apply(materialFixes, batchFixes, recipeFixes);
      }
    }
  }
}
