/**
 The cost recovery as a whole: recipes after the transaction, and how many runs it takes until
 nothing changes any more.
 */
module CostFixedPoint {
  import opened Options
  import opened Columns
  import opened Units
  import opened Materials
  import opened CostRecovery
  import opened CostLaws

  // ----- Recipes after the transaction -----

  /**
   Every recipe ends as planned; and where the planned totals come from pre-fix rows, recomputing
   from the post-fix rows gives the same, up to the rounding of the new material costs.
   */
  lemma RecipesAfterTransaction(book: Book, venue: nat, k: nat)
    requires IsBook(book) && k < |book.recipes|
    ensures |Executed(book, venue).recipes| == |book.recipes|
    ensures IsRecipe(book.recipes[k], book.materials)
    ensures var r, r' := book.recipes[k], Executed(book, venue).recipes[k];
            var ms, ms' := book.materials, Executed(book, venue).materials;
            var fixed := FixIds(MaterialFixes(ms, venue));
            && IsRecipeAfter(r, r', ms, venue, fixed)
            && IsRecipe(r', ms')
            && TotalCost(r'.lines, ms', {}, r'.portionYield)
               == TotalCost(r.lines, ms, fixed, r.portionYield) + CostRounding(r.lines, ms, fixed, r.portionYield)
  {
    var r := book.recipes[k];
    var ms, ms' := book.materials, Executed(book, venue).materials;
    var fixed := FixIds(MaterialFixes(ms, venue));
    assert r in book.recipes;
    ExecutedRows(book, venue);
    RecipeEndsAsPlanned(r, ms, venue, fixed);
    LinesKeepMaterials(r.lines, RecipeAfter(r, ms, venue, fixed).lines, ms, ms', venue);
    TotalRecomputed(r.lines, RecipeAfter(r, ms, venue, fixed).lines, ms, ms', venue, r.portionYield);
  }

  /** The planned total of a recipe is what recomputing it from the rows after the transaction gives. */
  ghost predicate PlanIsRecomputed(book: Book, venue: nat, k: nat)
    requires IsBook(book) && k < |book.recipes|
  {
    RecipesAfterTransaction(book, venue, k);
    var r, r' := book.recipes[k], Executed(book, venue).recipes[k];
    TotalCost(r'.lines, Executed(book, venue).materials, {}, r'.portionYield)
    == TotalCost(r.lines, book.materials, FixIds(MaterialFixes(book.materials, venue)), r.portionYield)
  }

  /** The plan equals recomputing from the fixed rows iff the rounded material costs add nothing to the recipe. */
  lemma {:induction false} PlanEqualsRecomputingIff(book: Book, venue: nat, k: nat)
    requires IsBook(book) && k < |book.recipes|
    ensures IsRecipe(book.recipes[k], book.materials)
    ensures var r, fixed := book.recipes[k], FixIds(MaterialFixes(book.materials, venue));
            PlanIsRecomputed(book, venue, k) <==> CostRounding(r.lines, book.materials, fixed, r.portionYield) == 0.0
  {
    RecipesAfterTransaction(book, venue, k);
  }

  /** The stored cost of a line, if it counts. */
  function StoredLine(line: Line, after: Line, ms: seq<Material>, fixed: set<nat>, portionYield: nat): real
    requires portionYield > 0 && HasMaterial(ms, line.material)
  {
    if LineCost(line, ms, fixed, portionYield).Some? then OrZero(after.costPerServing) else 0.0
  }

  function StoredLines(lines: seq<Line>, after: seq<Line>, ms: seq<Material>, fixed: set<nat>, portionYield: nat): real
    requires portionYield > 0 && LinesHaveMaterials(lines, ms) && |after| == |lines|
  {
    if lines == [] then 0.0
    else
      var n := |lines| - 1;
      StoredLines(lines[..n], after[..n], ms, fixed, portionYield) + StoredLine(lines[n], after[n], ms, fixed, portionYield)
  }

  lemma {:induction false} StoredLinesNearTotal(lines: seq<Line>, after: seq<Line>, ms: seq<Material>, fixed: set<nat>, portionYield: nat)
    requires portionYield > 0 && LinesHaveMaterials(lines, ms) && AreLinesAfter(lines, after, ms, fixed, portionYield)
    ensures IsNear(StoredLines(lines, after, ms, fixed, portionYield), TotalCost(lines, ms, fixed, portionYield), TENTH_MILLI, |lines|)
    decreases |lines|
  {
    if lines == [] {
    } else {
      var n := |lines| - 1;
      StoredLinesNearTotal(lines[..n], after[..n], ms, fixed, portionYield);
      NearSum(StoredLines(lines[..n], after[..n], ms, fixed, portionYield), TotalCost(lines[..n], ms, fixed, portionYield),
              StoredLine(lines[n], after[n], ms, fixed, portionYield), OrZero(LineCost(lines[n], ms, fixed, portionYield)), TENTH_MILLI, n, 1);
    }
  }

  /** The line costs of a recipe that ended as planned agree with its total: n lines differ from it by at most (n + 1) half units of the fourth decimal. */
  lemma LineCostsAgreeWithTotal(r: Recipe, after: Recipe, ms: seq<Material>, venue: nat, fixed: set<nat>)
    requires IsRecipe(r, ms) && r.venue == venue && Touches(r, fixed) && IsRecipeAfter(r, after, ms, venue, fixed)
    ensures IsNear(after.totalCost, StoredLines(r.lines, after.lines, ms, fixed, r.portionYield), TENTH_MILLI, |r.lines| + 1)
  {
    var total := TotalCost(r.lines, ms, fixed, r.portionYield);
    StoredLinesNearTotal(r.lines, after.lines, ms, fixed, r.portionYield);
    StoredIsNear(total, TENTH_MILLI);
  }

  // ----- Running again -----

  /** A divided and stored cost is still above one iff the old cost was at least 1000.05. */
  lemma StillAboveOneIff(cost: real)
    ensures Stored(cost / 1000.0, TENTH_MILLI) > 1.0 <==> cost >= 1000.05
  {
    var x := cost / 1000.0 * TENTH_MILLI;
    assert x == cost * 10.0;
    DivideOut(Stored(cost / 1000.0, TENTH_MILLI), RoundHalfUp(x) as real, TENTH_MILLI);
    RoundHalfUpNearest(x);
    if cost >= 1000.05 {
      FloorBounds(x + 0.5);
      assert RoundHalfUp(x) >= 10001;
    } else if x >= 0.0 {
      FloorBounds(x + 0.5);
      assert RoundHalfUp(x) < 10001;
    } else {
      assert RoundHalfUp(x) < 1;
    }
  }

  /** Which materials a second run would divide again. */
  lemma NeedsFixAgainIff(m: Material, venue: nat)
    ensures NeedsFix(FixedMaterial(m, venue), venue) <==> NeedsFix(m, venue) && m.cost >= 1000.05
  {
    StillAboveOneIff(m.cost);
  }

  lemma {:induction false} NoFixesIff(ms: seq<Material>, venue: nat)
    ensures MaterialFixes(ms, venue) == [] <==> forall m :: m in ms ==> !NeedsFix(m, venue)
    decreases |ms|
  {
    if ms == [] {
    } else {
      var n := |ms| - 1;
      NoFixesIff(ms[..n], venue);
      assert ms == ms[..n] + [ms[n]];
    }
  }

  lemma {:induction false} NothingTouched(rs: seq<Recipe>, ms: seq<Material>, venue: nat)
    requires forall r :: r in rs ==> IsRecipe(r, ms)
    ensures RecipeFixes(rs, ms, venue, {}) == []
    decreases |rs|
  {
    if rs == [] {
    } else {
      NothingTouched(rs[..|rs| - 1], ms, venue);
    }
  }

  /** A run that finds no material to divide writes nothing at all. */
  lemma IdleWithoutFixes(book: Book, venue: nat)
    requires HasRecipes(book)
    requires forall m :: m in book.materials ==> !NeedsFix(m, venue)
    ensures Executed(book, venue) == book
  {
    NoFixesIff(book.materials, venue);
    assert FixIds([]) == {};
    NothingTouched(book.recipes, book.materials, venue);
  }

  lemma DividingShrinks(cost: real)
    requires cost > 1.0
    ensures Stored(cost / 1000.0, TENTH_MILLI) < cost
    ensures Stored(cost / 1000.0, TENTH_MILLI) > -1.0
    ensures cost < 1000000.0 ==> Stored(cost / 1000.0, TENTH_MILLI) < 1000.05
  {
    StoredError(cost / 1000.0, TENTH_MILLI);
  }

  lemma DividedIsColumnCost(cost: real)
    requires IsColumnCost(cost)
    ensures IsColumnCost(Stored(cost / 1000.0, TENTH_MILLI))
  {
    StoredError(cost / 1000.0, TENTH_MILLI);
    StoredFits(cost / 1000.0, TENTH_MILLI);
  }

  lemma RecipeStaysStored(r: Recipe, after: Recipe, ms: seq<Material>, venue: nat, fixed: set<nat>)
    requires IsRecipe(r, ms) && IsRecipeAfter(r, after, ms, venue, fixed)
    requires UniqueLines(r.lines) && Fits(r.totalCost, TENTH_MILLI)
    requires forall line :: line in r.lines ==> Fits(OrZero(line.costPerServing), TENTH_MILLI)
    ensures after.id == r.id && UniqueLines(after.lines) && Fits(after.totalCost, TENTH_MILLI)
    ensures forall line :: line in after.lines ==> Fits(OrZero(line.costPerServing), TENTH_MILLI)
  {
    StoredFits(TotalCost(r.lines, ms, fixed, r.portionYield), TENTH_MILLI);
    if r.venue == venue && Touches(r, fixed) {
      forall line | line in after.lines ensures Fits(OrZero(line.costPerServing), TENTH_MILLI) {
        var j :| 0 <= j < |after.lines| && after.lines[j] == line;
        assert IsLineAfter(r.lines[j], after.lines[j], ms, fixed, r.portionYield) && r.lines[j] in r.lines;
        StoredFits(OrZero(LineCost(r.lines[j], ms, fixed, r.portionYield)), TENTH_MILLI);
      }
      forall i, j | 0 <= i < j < |after.lines| ensures after.lines[i].id != after.lines[j].id {
        assert IsLineAfter(r.lines[i], after.lines[i], ms, fixed, r.portionYield);
        assert IsLineAfter(r.lines[j], after.lines[j], ms, fixed, r.portionYield);
      }
    }
  }

  lemma RecipesStayRecipes(book: Book, venue: nat)
    requires IsBook(book)
    ensures forall r :: r in Executed(book, venue).recipes ==>
              IsRecipe(r, Executed(book, venue).materials) && UniqueLines(r.lines) && Fits(r.totalCost, TENTH_MILLI)
    ensures forall r, line :: r in Executed(book, venue).recipes && line in r.lines ==> Fits(OrZero(line.costPerServing), TENTH_MILLI)
    ensures UniqueRecipes(Executed(book, venue).recipes)
  {
    var after := Executed(book, venue);
    var fixed := FixIds(MaterialFixes(book.materials, venue));
    ExecutedRows(book, venue);
    forall k | 0 <= k < |book.recipes|
      ensures IsRecipe(after.recipes[k], after.materials) && UniqueLines(after.recipes[k].lines) && Fits(after.recipes[k].totalCost, TENTH_MILLI)
      ensures after.recipes[k].id == book.recipes[k].id
      ensures forall line :: line in after.recipes[k].lines ==> Fits(OrZero(line.costPerServing), TENTH_MILLI)
    {
      assert book.recipes[k] in book.recipes;
      RecipesAfterTransaction(book, venue, k);
      RecipeStaysStored(book.recipes[k], after.recipes[k], book.materials, venue, fixed);
    }
  }

  lemma MaterialsStayColumnCosts(book: Book, venue: nat)
    requires IsBook(book)
    ensures UniqueMaterials(Executed(book, venue).materials)
    ensures forall m :: m in Executed(book, venue).materials ==> IsColumnCost(m.cost)
  {
    var after := Executed(book, venue).materials;
    ExecutedRows(book, venue);
    forall k | 0 <= k < |after| ensures after[k].id == book.materials[k].id && IsColumnCost(after[k].cost) {
      assert book.materials[k] in book.materials;
      DividedIsColumnCost(book.materials[k].cost);
    }
  }

  lemma BatchesStayColumnCosts(book: Book, venue: nat)
    requires IsBook(book)
    ensures UniqueBatches(Executed(book, venue).batches)
    ensures forall b :: b in Executed(book, venue).batches ==> IsColumnCost(b.cost)
  {
    var after := Executed(book, venue).batches;
    ExecutedRows(book, venue);
    forall k | 0 <= k < |after| ensures after[k].id == book.batches[k].id && IsColumnCost(after[k].cost) {
      assert book.batches[k] in book.batches;
      DividedIsColumnCost(book.batches[k].cost);
    }
  }

  /** An executed run leaves a well-formed book. */
  lemma ExecutedKeepsBook(book: Book, venue: nat)
    requires IsBook(book)
    ensures IsBook(Executed(book, venue))
  {
    MaterialsStayColumnCosts(book, venue);
    BatchesStayColumnCosts(book, venue);
    RecipesStayRecipes(book, venue);
  }

  /** No gram or millilitre cost in the venue's live materials reaches 1000.05. */
  ghost predicate NoHugeCost(book: Book, venue: nat) {
    forall m :: m in book.materials && NeedsFix(m, venue) ==> m.cost < 1000.05
  }

  lemma SettledAfterRun(book: Book, venue: nat)
    requires IsBook(book) && NoHugeCost(book, venue)
    ensures forall m :: m in Executed(book, venue).materials ==> !NeedsFix(m, venue)
  {
    ExecutedRows(book, venue);
    forall m' | m' in Executed(book, venue).materials ensures !NeedsFix(m', venue) {
      var k :| 0 <= k < |book.materials| && Executed(book, venue).materials[k] == m';
      assert book.materials[k] in book.materials;
      NeedsFixAgainIff(book.materials[k], venue);
    }
  }

  lemma RunDividesAgain(book: Book, venue: nat, m: Material)
    requires IsBook(book) && m in book.materials && NeedsFix(m, venue)
    ensures Executed(book, venue) != book
  {
    ExecutedRows(book, venue);
    var k :| 0 <= k < |book.materials| && book.materials[k] == m;
    DividingShrinks(m.cost);
  }

  /** The first run is a fixed point iff no gram or millilitre cost was 1000.05 or more. */
  lemma FirstRunIsFixedPointIff(book: Book, venue: nat)
    requires IsBook(book)
    ensures HasRecipes(Executed(book, venue))
    ensures Executed(Executed(book, venue), venue) == Executed(book, venue) <==> NoHugeCost(book, venue)
  {
    var once := Executed(book, venue);
    ExecutedKeepsBook(book, venue);
    if NoHugeCost(book, venue) {
      SettledAfterRun(book, venue);
      IdleWithoutFixes(once, venue);
    } else {
      var m :| m in book.materials && NeedsFix(m, venue) && m.cost >= 1000.05;
      var k :| 0 <= k < |book.materials| && book.materials[k] == m;
      ExecutedRows(book, venue);
      NeedsFixAgainIff(m, venue);
      assert once.materials[k] in once.materials;
      RunDividesAgain(once, venue, once.materials[k]);
    }
  }

  /** Two runs always suffice: the columns hold no cost that a second division would leave too large. */
  lemma TwoRunsSuffice(book: Book, venue: nat)
    requires IsBook(book)
    ensures HasRecipes(Executed(book, venue))
    ensures HasRecipes(Executed(Executed(book, venue), venue))
    ensures var twice := Executed(Executed(book, venue), venue);
            Executed(twice, venue) == twice
  {
    var once := Executed(book, venue);
    ExecutedKeepsBook(book, venue);
    ExecutedKeepsBook(once, venue);
    ExecutedRows(book, venue);
    forall m' | m' in once.materials && NeedsFix(m', venue) ensures m'.cost < 1000.05 {
      var k :| 0 <= k < |once.materials| && once.materials[k] == m';
      var m := book.materials[k];
      assert m in book.materials;
      NeedsFixAgainIff(m, venue);
      DividingShrinks(m.cost);
    }
    FirstRunIsFixedPointIff(once, venue);
  }

  // ----- A recipe whose plan differs from recomputing -----

  /** 25.55 per kilogram becomes 0.02555 in the plan and 0.0256 in the column. */
  lemma RoundedCost()
    ensures 25.55 / 1000.0 == 0.02555
    ensures Stored(0.02555, TENTH_MILLI) == 0.0256
    ensures IsColumnCost(25.55) && Fits(1.0, TENTH_MILLI) && Fits(0.0, TENTH_MILLI)
  {
    assert (255.5 + 0.5).Floor == 256;
    FitsWhole(25.55, TENTH_MILLI, 255500);
    FitsWhole(1.0, TENTH_MILLI, 10000);
    FitsZero(TENTH_MILLI);
  }

  const ROUNDED_MATERIAL: Material := Material(0, 0, true, false, GRAM, 0.0, 25.55, 25.55)
  const ROUNDED_LINE: Line := Line(0, 0, 1.0, GRAM, None)

  /** A recipe of one gram of a material recorded at 25.55. */
  const ROUNDED_BOOK: Book := Book([ROUNDED_MATERIAL], [], [Recipe(0, 0, 1, 0.0, [ROUNDED_LINE])])

  lemma RoundedIsBook()
    ensures IsBook(ROUNDED_BOOK)
  {
    RoundedCost();
    MaterialIsOnly(ROUNDED_BOOK.materials, ROUNDED_MATERIAL);
  }

  /** The column stores a cost of 0.0256, the plan used 0.02555. */
  lemma PlanCanDifferFromRecomputing()
    ensures IsBook(ROUNDED_BOOK) && !PlanIsRecomputed(ROUNDED_BOOK, 0, 0)
  {
    RoundedIsBook();
    RoundedCost();
    MaterialIsOnly(ROUNDED_BOOK.materials, ROUNDED_MATERIAL);
    IsFixedIff(ROUNDED_BOOK.materials, 0, ROUNDED_MATERIAL);
    var fixed := FixIds(MaterialFixes(ROUNDED_BOOK.materials, 0));
    assert [ROUNDED_LINE][..0] == [];
    assert CostRounding([ROUNDED_LINE], ROUNDED_BOOK.materials, fixed, 1)
        == CostRounding([], ROUNDED_BOOK.materials, fixed, 1) + LineRounding(ROUNDED_LINE, ROUNDED_BOOK.materials, fixed, 1);
    assert LineRounding(ROUNDED_LINE, ROUNDED_BOOK.materials, fixed, 1) == 0.0256 - 0.02555;
    PlanEqualsRecomputingIff(ROUNDED_BOOK, 0, 0);
  }

  const HUGE: Book := Book([Material(0, 0, true, false, GRAM, 0.0, 2000.0, 2000.0)], [], [])

  lemma HugeIsBook()
    ensures IsBook(HUGE)
  {
    FitsWhole(2000.0, TENTH_MILLI, 20000000);
  }

  /** 2000 per gram becomes 2 in the first run, and 0.002 in the second. */
  lemma SecondRunCanDivide()
    ensures HasRecipes(Executed(HUGE, 0)) && Executed(Executed(HUGE, 0), 0) != Executed(HUGE, 0)
  {
    HugeIsBook();
    assert HUGE.materials[0] in HUGE.materials && NeedsFix(HUGE.materials[0], 0) && !NoHugeCost(HUGE, 0);
    FirstRunIsFixedPointIff(HUGE, 0);
  }
}
