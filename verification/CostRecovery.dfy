/**
 The cost recovery: costs entered per kilogram or litre on materials kept in grams or millilitres
 are divided by a thousand, with the batches and recipes that used them.  Plans are made from the
 rows before the fix; one transaction writes them.  Costs are stored with four decimals.
 */
module CostRecovery {
  import opened Options
  import opened Columns
  import opened Units
  import opened Materials

  // ----- Rows -----

  datatype Batch = Batch(id: nat, material: nat, active: bool, cost: real)

  datatype Line = Line(id: nat, material: nat, quantity: real, unit: Unit, costPerServing: Option<real>)

  datatype Recipe = Recipe(id: nat, venue: nat, portionYield: nat, totalCost: real, lines: seq<Line>)

  ghost predicate UniqueBatches(bs: seq<Batch>) {
    forall i, j :: 0 <= i < j < |bs| ==> bs[i].id != bs[j].id
  }

  ghost predicate UniqueRecipes(rs: seq<Recipe>) {
    forall i, j :: 0 <= i < j < |rs| ==> rs[i].id != rs[j].id
  }

  ghost predicate UniqueLines(lines: seq<Line>) {
    forall i, j :: 0 <= i < j < |lines| ==> lines[i].id != lines[j].id
  }

  // ----- Materials -----

  predicate ShouldNormalize(unit: Unit, cost: real) {
    (unit == GRAM && cost > 1.0) || (unit == MILLILITER && cost > 1.0)
  }

  predicate NeedsFix(m: Material, venue: nat) {
    IsLive(m, venue) && ShouldNormalize(m.unit, m.cost)
  }

  datatype MaterialFix = MaterialFix(id: nat, oldCost: real, newCost: real, newAvgCost: real)

  function MaterialFixOf(m: Material): MaterialFix {
    MaterialFix(m.id, m.cost, m.cost / 1000.0, if m.avgCost > 1.0 then m.avgCost / 1000.0 else m.avgCost)
  }

  function MaterialFixes(ms: seq<Material>, venue: nat): seq<MaterialFix> {
    if ms == [] then []
    else
      var n := |ms| - 1;
      MaterialFixes(ms[..n], venue) + if NeedsFix(ms[n], venue) then [MaterialFixOf(ms[n])] else []
  }

  function FixIds(fixes: seq<MaterialFix>): set<nat> {
    set fix | fix in fixes :: fix.id
  }

  // ----- Batches -----

  datatype BatchFix = BatchFix(batch: nat, newCost: real)

  /** An active batch of the material with the material's old cost, unless that is the new one too. */
  predicate SharesOldCost(b: Batch, fix: MaterialFix) {
    b.material == fix.id && b.active && b.cost == fix.oldCost && b.cost != fix.newCost
  }

  function BatchFixesOf(fix: MaterialFix, bs: seq<Batch>): seq<BatchFix> {
    if bs == [] then []
    else
      var n := |bs| - 1;
      BatchFixesOf(fix, bs[..n]) + if SharesOldCost(bs[n], fix) then [BatchFix(bs[n].id, bs[n].cost / 1000.0)] else []
  }

  function BatchFixes(fixes: seq<MaterialFix>, bs: seq<Batch>): seq<BatchFix> {
    if fixes == [] then []
    else BatchFixes(fixes[..|fixes| - 1], bs) + BatchFixesOf(fixes[|fixes| - 1], bs)
  }

  // ----- Recipes -----

  datatype LineFix = LineFix(line: nat, newCost: real)

  datatype RecipeFix = RecipeFix(recipe: nat, newTotal: real, lines: seq<LineFix>)

  /** The quantity of a line in the unit of its material; none when the units are incompatible. */
  function QuantityIn(line: Line, unit: Unit): Option<real> {
    if line.unit == unit then Some(line.quantity)
    else if AreCompatible(line.unit, unit) then Some(Convert(line.quantity, line.unit, unit))
    else None
  }

  function EffectiveCost(m: Material, fixed: set<nat>): real {
    if m.id in fixed then m.cost / 1000.0 else m.cost
  }

  function PerServing(quantity: real, cost: real, portionYield: nat): real
    requires portionYield > 0
  {
    quantity * cost / portionYield as real
  }

  /** The cost of a line with the post-fix cost of its material; none for an incompatible line. */
  function LineCost(line: Line, ms: seq<Material>, fixed: set<nat>, portionYield: nat): Option<real>
    requires portionYield > 0 && HasMaterial(ms, line.material)
  {
    var m := MaterialOf(ms, line.material);
    match QuantityIn(line, m.unit)
    case Some(quantity) => Some(PerServing(quantity, EffectiveCost(m, fixed), portionYield))
    case None => None
  }

  function OrZero(cost: Option<real>): real {
    if cost.Some? then cost.value else 0.0
  }

  ghost predicate LinesHaveMaterials(lines: seq<Line>, ms: seq<Material>) {
    forall line :: line in lines ==> HasMaterial(ms, line.material)
  }

  function TotalCost(lines: seq<Line>, ms: seq<Material>, fixed: set<nat>, portionYield: nat): real
    requires portionYield > 0 && LinesHaveMaterials(lines, ms)
  {
    if lines == [] then 0.0
    else
      var n := |lines| - 1;
      TotalCost(lines[..n], ms, fixed, portionYield) + OrZero(LineCost(lines[n], ms, fixed, portionYield))
  }

  predicate LineNeedsFix(line: Line, ms: seq<Material>, fixed: set<nat>, portionYield: nat)
    requires portionYield > 0 && HasMaterial(ms, line.material)
  {
    var cost := LineCost(line, ms, fixed, portionYield);
    cost.Some? && cost.value != OrZero(line.costPerServing)
  }

  function LineFixes(lines: seq<Line>, ms: seq<Material>, fixed: set<nat>, portionYield: nat): seq<LineFix>
    requires portionYield > 0 && LinesHaveMaterials(lines, ms)
  {
    if lines == [] then []
    else
      var n := |lines| - 1;
      LineFixes(lines[..n], ms, fixed, portionYield)
      + if LineNeedsFix(lines[n], ms, fixed, portionYield) then [LineFix(lines[n].id, LineCost(lines[n], ms, fixed, portionYield).value)] else []
  }

  predicate Touches(r: Recipe, fixed: set<nat>) {
    exists k | 0 <= k < |r.lines| :: r.lines[k].material in fixed
  }

  ghost predicate IsRecipe(r: Recipe, ms: seq<Material>) {
    r.portionYield > 0 && LinesHaveMaterials(r.lines, ms)
  }

  function RecipeFixOf(r: Recipe, ms: seq<Material>, fixed: set<nat>): RecipeFix
    requires IsRecipe(r, ms)
  {
    RecipeFix(r.id, TotalCost(r.lines, ms, fixed, r.portionYield), LineFixes(r.lines, ms, fixed, r.portionYield))
  }

  predicate RecipeNeedsFix(r: Recipe, ms: seq<Material>, venue: nat, fixed: set<nat>)
    requires IsRecipe(r, ms)
  {
    && r.venue == venue && Touches(r, fixed)
    && (RecipeFixOf(r, ms, fixed).newTotal != r.totalCost || RecipeFixOf(r, ms, fixed).lines != [])
  }

  function RecipeFixes(rs: seq<Recipe>, ms: seq<Material>, venue: nat, fixed: set<nat>): seq<RecipeFix>
    requires forall r :: r in rs ==> IsRecipe(r, ms)
  {
    if rs == [] then []
    else
      var n := |rs| - 1;
      RecipeFixes(rs[..n], ms, venue, fixed) + if RecipeNeedsFix(rs[n], ms, venue, fixed) then [RecipeFixOf(rs[n], ms, fixed)] else []
  }

  // ----- What the transaction writes -----

  function UpdateMaterial(ms: seq<Material>, fix: MaterialFix): seq<Material> {
    seq(|ms|, k requires 0 <= k < |ms| =>
      if ms[k].id == fix.id then ms[k].(cost := Stored(fix.newCost, TENTH_MILLI), avgCost := Stored(fix.newAvgCost, TENTH_MILLI)) else ms[k])
  }

  function UpdateMaterials(ms: seq<Material>, fixes: seq<MaterialFix>): seq<Material> {
    if fixes == [] then ms else UpdateMaterial(UpdateMaterials(ms, fixes[..|fixes| - 1]), fixes[|fixes| - 1])
  }

  function UpdateBatch(bs: seq<Batch>, fix: BatchFix): seq<Batch> {
    seq(|bs|, k requires 0 <= k < |bs| => if bs[k].id == fix.batch then bs[k].(cost := Stored(fix.newCost, TENTH_MILLI)) else bs[k])
  }

  function UpdateBatches(bs: seq<Batch>, fixes: seq<BatchFix>): seq<Batch> {
    if fixes == [] then bs else UpdateBatch(UpdateBatches(bs, fixes[..|fixes| - 1]), fixes[|fixes| - 1])
  }

  function UpdateLine(lines: seq<Line>, fix: LineFix): seq<Line> {
    seq(|lines|, k requires 0 <= k < |lines| =>
      if lines[k].id == fix.line then lines[k].(costPerServing := Some(Stored(fix.newCost, TENTH_MILLI))) else lines[k])
  }

  function UpdateLines(lines: seq<Line>, fixes: seq<LineFix>): seq<Line> {
    if fixes == [] then lines else UpdateLine(UpdateLines(lines, fixes[..|fixes| - 1]), fixes[|fixes| - 1])
  }

  function FixedRecipe(r: Recipe, fix: RecipeFix): Recipe {
    r.(lines := UpdateLines(r.lines, fix.lines), totalCost := Stored(fix.newTotal, TENTH_MILLI))
  }

  function UpdateRecipe(rs: seq<Recipe>, fix: RecipeFix): seq<Recipe> {
    seq(|rs|, k requires 0 <= k < |rs| => if rs[k].id == fix.recipe then FixedRecipe(rs[k], fix) else rs[k])
  }

  function UpdateRecipes(rs: seq<Recipe>, fixes: seq<RecipeFix>): seq<Recipe> {
    if fixes == [] then rs else UpdateRecipe(UpdateRecipes(rs, fixes[..|fixes| - 1]), fixes[|fixes| - 1])
  }

  // ----- One executed run, table by table -----

  datatype Book = Book(materials: seq<Material>, batches: seq<Batch>, recipes: seq<Recipe>)

  /** Costs as the columns hold them: four decimals, and less than a million. */
  predicate IsColumnCost(cost: real) {
    Fits(cost, TENTH_MILLI) && -1000000.0 < cost < 1000000.0
  }

  ghost predicate IsBook(book: Book) {
    && UniqueMaterials(book.materials)
    && UniqueBatches(book.batches)
    && UniqueRecipes(book.recipes)
    && (forall m :: m in book.materials ==> IsColumnCost(m.cost))
    && (forall b :: b in book.batches ==> IsColumnCost(b.cost))
    && (forall r :: r in book.recipes ==> IsRecipe(r, book.materials) && UniqueLines(r.lines) && Fits(r.totalCost, TENTH_MILLI))
    && (forall r, line :: r in book.recipes && line in r.lines ==> Fits(OrZero(line.costPerServing), TENTH_MILLI))
  }

  ghost predicate HasRecipes(book: Book) {
    forall r :: r in book.recipes ==> IsRecipe(r, book.materials)
  }

  function Executed(book: Book, venue: nat): Book
    requires HasRecipes(book)
  {
    var fixes := MaterialFixes(book.materials, venue);
    Book(UpdateMaterials(book.materials, fixes),
         UpdateBatches(book.batches, BatchFixes(fixes, book.batches)),
         UpdateRecipes(book.recipes, RecipeFixes(book.recipes, book.materials, venue, FixIds(fixes))))
  }
}
