# Audits and data recovery of the Avoqado server, modelled in Dafny

The server's `scripts/` directory holds the logic that nobody can afford to get wrong twice: audits
that decide whether a release may go ahead, and repairs that rewrite stock, costs and money in
place. This project models nine of them and proves what each promises, over all inputs, all
histories and all repetitions. Where a promise does not hold, the model keeps the code as it is, and
the project exhibits an input on which it fails and proves the condition under which it holds.

`dafny verify dfyconfig.toml` checks everything.

## The systems

**Permission audit** (`EditDistance`, `NameDrift`). The table that the audit fills is specified by a
recursion, and the recursion is proved to be the length of a shortest chain of single-character
edits. The drift pass loops over all pairs with a pruned distance and a set of seen keys; its report
is proved to be about true edits, complete, and free of duplicates.

**Assistant-coverage audit** (`Scanner`, `SourceTokens`, `RoutePath`, `TextOrder`, `Mounts`,
`MountSettling`, `MountResolver`). Cutting a call out of a source text and splitting its arguments
undo printing; on every text they are what its plain characters and its literals say.
Joining route paths is concatenation of segments. The mount worklist computes the reachable closure,
and it ends exactly on those projects in which no reachable loop of `router.use` calls lengthens the
prefix; everything recorded comes from a shortest chain of calls. A route file that mounts itself at
"/x" keeps it going forever (`SelfMountNeverSettles`).

**Inventory recovery** (`Columns`, `Units`, `Materials`, `Inventory`, `InventoryLaws`,
`InventoryFixedPoint`, `InventorySecondRun`, `InventoryAborted`, `InventoryValue`, `InventoryRows`,
`InventoryRecovery`). Three phases repair a stock ledger. Quantities are exact until a column stores
them with three decimals, and that is where the promises bend:
- The dry run announces the stock that an execution then finds, up to the rounding of what the
  execution stores. They are equal iff that rounding cancels out for every live material
  (`DryRunEqualsExecutionIff`); 5.5 g in a material kept in kilograms is enough to make them differ
  (`DryRunCanDiffer`).
- The final verification passes iff, for every live material, what other venues booked in a unit to
  convert adds up to three decimals (`VerificationPassesIff`): normalising selects batches by the
  venue of the batch, recomputing by the venue of the material (`VerificationCanFail`). This iff is
  about exact sums. The script adds decimals of twenty digits, and three batches of 4 pieces, booked
  elsewhere for a material kept in dozens, add up to 0.99999999999999999999 there and to one in the
  model. What does not depend on that is `VerificationPassesWhenEachFits`: it passes when each such
  batch comes to three decimals by itself, and then every summand has at most three.
- One execution is a fixed point iff the verification passes and it strands no live material: leaves
  none with stock but no open batch (`FixedPointIff`); a second one changes no row iff it strands
  none (`SecondRunIsIdleIff`). Which materials it strands is read off the ledger before the run
  (`StrandedIff`): live, not backfilled, every active batch closed after conversion and storing, and
  yet a positive sum. With no negative remainders, that takes a material kept in degrees Fahrenheit
  and another venue's spent batch of degrees Celsius (`StrandedMeansSpentCelsius`,
  `SecondRunCanBackfill`). A third execution never changes a row (`TwoRunsSuffice`).
- An execution stops in phase 2, after the backfills, iff it comes to a batch whose converted initial
  quantity is zero (`AbortsIff`), and so does every one after it (`AbortsAgain`). The laws of the
  written rows are about executions that get through.
- The plan of a unit conversion conserves value, except between temperature scales. The written row
  conserves it iff the converted cost fits four decimals, when the quantities fit three
  (`WrittenValueKeptIff`): a kilogram at 12.3456 becomes 1000 g at 0.0123 (`WrittenValueCanChange`).
  Every deviation is exactly what storing changed (`WrittenValue`), and bounded
  (`WrittenValueIsBounded`). Between temperature scales what is left is revalued by the offset of the
  scales (`WrittenTemperature`, `TemperatureIsRevalued`).

**Cost recovery** (`CostRecovery`, `CostLaws`, `CostFixedPoint`, `CostRows`, `CostBook`). Costs per kilogram or
litre are divided by a thousand, with their batches and recipes. The plan is made from the rows
before the fix; recomputing a recipe from the rows after it gives the planned total plus the rounding
of the new material costs, which four decimals do not always hold. One run is a fixed point iff no
gram or millilitre cost was 1000.05 or more (not 1000: a cost of 1000.04 becomes 1.0000 in
the column); two runs always are.

**Rollout gate** (`Preflight`, `PreflightMeaning`). Exit code zero means that nobody is double-booked
within an organisation when the run ends, although every test of a row reads the clock anew; any
double booking still open at the end forces exit code one. The same is said of the columns: what the
gate promises at the end of the run (`AllClearMeansReady`), and what lets it pass
(`ReadyMeansAllClear`).

**Money backfills** (`ShiftBackfill`, `ShiftHistories`, `ShiftScript`, `CustomItems`, `RefundCosts`,
`RefundRuns`) and the **demo history** (`SeedShifts`). Refunds come off their shift exactly once over
every history of runs; repaired orders balance to the cent; shifts close on their payments. Money is
in whole cents, costs are reals.

In any run over the refunds of any payments, the reversal rows of a payment refunded in full cancel
its amount; they cancel a cost column iff the rounding of its proportions adds up to nothing
(`RunCancelsPayment`). The proportions are products of doubles, which can fall on either side of an
exact half of the fourth decimal. The model takes the side as an unknown function of the three
numbers the product is computed from, and the laws hold for every such function. It matters at exact
halves alone, by one unit each (`OnlyHalvesGoEitherWay`). Two refunds cancel every column unless the
proportions are exact halves that fall the same way (`TwoRefundsCancelIff`), as two halves of 0.0001
do (`WrittenCanMiss`); one full refund always cancels (`FullReversalCancels`). A second run finds
something to write iff an insert failed in the first, or a refund of a refund came too early
(`SecondRunIsIdleIff`); the services refuse refunds of refunds
(`src/services/dashboard/refund.dashboard.service.ts:217-218`), which leaves the failed inserts
(`FailedInsertsComeBack`).

Code that loops over rows and updates them is a class or a method with loops and invariants
(`InventoryRecovery.Ledger`, `CostBook.Database`, `ShiftScript.Database`, `CustomItems.Store`,
`RefundRuns.Database`, the table of `EditDistance.Levenshtein`); each is tied to functions on the
tables, and the laws are lemmas about those functions. What a whole run does is stated a second time
on the columns alone, without those functions (`IsResolved`, `AddsStock`, `RecoveredRows`, `IsReady`,
`IsBackfilled`, `AddsItems`, `AddsReversals`).

## Where code and documentation disagree

The model follows the code.
- `scripts/backfill-missing-custom-items.ts:141-144` means to count orders with a negative difference
  on their own; the test for one cent or less (line 137) comes first, so that count is always zero.
- `scripts/backfill-refund-shift-totals.ts:114-131` skips shifts that are missing, and still marks
  their refunds as taken off.
- `scripts/recover-inventory-units.ts:118-123` says that the simulated drift matches what an
  execution leaves; the columns (`prisma/schema.prisma:1730`, `prisma/schema.prisma:2285-2286`) keep
  three decimals of it.
- `scripts/recover-cost-per-unit.ts:14-17` speaks of detecting batches that are normalised already;
  that test (line 93) never decides anything, because an old cost above one is never the divided one.

## Model

| member | source | states |
|---|---|---|
| EditDistance.DistIsMinimal | scripts/audit-permissions.ts:164-173 | the value of the table is the length of a shortest chain of one-character insertions, deletions and replacements: such a chain exists, and none is shorter |
| EditDistance.NoShorterPath | scripts/audit-permissions.ts:167-172 | no chain of edits between two strings is shorter than their distance |
| EditDistance.ShortestPathExists | scripts/audit-permissions.ts:167-172 | a chain of edits as long as the distance exists |
| EditDistance.DistOneIffOneEdit | scripts/audit-permissions.ts:491-492 | distance one means exactly one edit, in both directions |
| EditDistance.DistZeroIffEqual | scripts/audit-permissions.ts:169-170 | distance zero iff the strings are equal |
| EditDistance.DistSymmetric | scripts/audit-permissions.ts:160-174 | the distance does not depend on the order of the names |
| EditDistance.DistTriangle | scripts/audit-permissions.ts:160-174 | the triangle inequality |
| EditDistance.DistAtLeastLengthGap | scripts/audit-permissions.ts:163 | the distance is at least the gap between the lengths, which is what makes the prune harmless |
| EditDistance.FillBorders | scripts/audit-permissions.ts:165-166 | row and column zero hold the distances to the empty prefix |
| EditDistance.FillRow | scripts/audit-permissions.ts:168-171 | one pass of the inner loop turns i finished rows into i + 1: every entry is the distance of its two prefixes |
| EditDistance.Levenshtein | scripts/audit-permissions.ts:160-174 | 99 above a length gap of two and the true distance otherwise; whenever either the answer or the true distance is at most two, they are the same |
| NameDrift.FindNameDrift | scripts/audit-permissions.ts:478-501 | the report holds exactly the pairs of known names with one resource and one edit between them, no other issue, and no unordered pair twice |
| NameDrift.ReportRow | scripts/audit-permissions.ts:483-500 | the inner loop reports the drifting partners of one name and leaves every key still ahead unseen |
| NameDrift.TestPair | scripts/audit-permissions.ts:489-492 | the guard on the pruned distance decides same resource and true distance one |
| NameDrift.DriftKeyInjective | scripts/audit-permissions.ts:486 | without a bar in the names, equal keys come from equal pairs, so the seen-set hides no pair |
| NameDrift.NamesHaveNoBar | scripts/audit-permissions.ts:190 | what the extraction pattern lets through contains no bar |
| NameDrift.Resource | scripts/audit-permissions.ts:490 | the longest prefix of a name without a colon |
| NameDrift.MetPairsExact | scripts/audit-permissions.ts:482-483 | the two loops meet every unordered pair of positions, each once |
| Scanner.ExtractBalanced | scripts/audit-assistant-coverage.ts:260-292 | returns the text up to the first position where the brackets opened since are closed outside every literal, and nothing iff there is none; SourceTokens.ExtractsTokens says what that is on the text itself |
| Scanner.CloseLengthIsFirst | scripts/audit-assistant-coverage.ts:408-432 | the scan, for parentheses and braces alike, stops at the first closing position and only runs out when there is none |
| Scanner.ExtractUndoesWrap | scripts/audit-assistant-coverage.ts:260-292 | a balanced body between its brackets comes back whole, whatever surrounds it |
| Scanner.SplitTopLevelArgs | scripts/audit-assistant-coverage.ts:294-323 | the loop computes the trimmed, non-empty pieces between top-level commas; SourceTokens.SplitsTokens says what those are on the text itself |
| Scanner.PiecesRejoin | scripts/audit-assistant-coverage.ts:315-321 | for every text, balanced or not, the pieces joined by commas are the text again |
| Scanner.TrimUndoesPadding | scripts/audit-assistant-coverage.ts:316-321 | trimming removes exactly the white space printed around an argument |
| Scanner.SplitUndoesPrint | scripts/audit-assistant-coverage.ts:294-323 | any list of arguments with closed literals and matched brackets survives printing and splitting |
| Scanner.ScanUndoesPrint | scripts/audit-assistant-coverage.ts:249-252 | a call printed anywhere in a text is cut out, and its inside splits into its arguments |
| SourceTokens.EveryTextIsTokens | scripts/audit-assistant-coverage.ts:265-284 | every text is a list of plain characters and of literals in double quotes, single quotes or backticks, with a backslash in front of whatever they escape; only the last literal may be open |
| SourceTokens.ExtractsTokens | scripts/audit-assistant-coverage.ts:260-292 | on any text so read, the cut ends with the first plain close bracket that brings the count of plain brackets to zero; brackets inside the three kinds of literal never count |
| SourceTokens.SplitsTokens | scripts/audit-assistant-coverage.ts:294-323 | on any text so read, the splitter cuts at the plain commas at which no plain bracket of the three kinds is open, and nowhere else |
| SourceTokens.LiteralIsArgument | scripts/audit-assistant-coverage.ts:281-284 | whatever stands in a literal of the three quotes, with the quote and backslashes escaped, it is one argument, and balanced for braces |
| SourceTokens.TrimMeaning | scripts/audit-assistant-coverage.ts:315-321 | trimming takes all white space off both ends, and nothing else |
| SourceTokens.SpaceIsListed | scripts/audit-assistant-coverage.ts:315 | white space is the characters that ECMAScript lists, one by one |
| SourceTokens.NonEmptyMeaning | scripts/audit-assistant-coverage.ts:322 | empty arguments are dropped, the others stay in their order |
| RoutePath.NormalizeMeaning | scripts/audit-assistant-coverage.ts:484-487 | joining prefix and path is the canonical text of their concatenated non-empty segments |
| RoutePath.NormalizeSegments | scripts/audit-assistant-coverage.ts:484-487 | the segments of the result are those of the prefix and then those of the path; it is rooted iff the prefix is |
| RoutePath.NormalizeAssociative | scripts/audit-assistant-coverage.ts:484-487 | joining is associative |
| RoutePath.NormalizeTidy | scripts/audit-assistant-coverage.ts:486 | the result is a single slash, or has no double and no trailing slash |
| RoutePath.NormalizeUnit | scripts/audit-assistant-coverage.ts:484-487 | mounting at a slash leaves a joined path alone |
| TextOrder.UniqueMeaning | scripts/audit-assistant-coverage.ts:717-719 | strictly sorted, and exactly the non-empty values |
| TextOrder.UniqueAbsorbs | scripts/audit-assistant-coverage.ts:199-204 | sorting what was inherited first changes nothing |
| TextOrder.LessMeaning | scripts/audit-assistant-coverage.ts:717-719 | a string comes before another iff it is a proper prefix of it, or has the smaller character at the first place where they differ |
| Mounts.HasMountMeaning | scripts/audit-assistant-coverage.ts:217-225 | the lookup by file and prefix finds a mount iff one with that file and prefix was added before |
| Mounts.GroupedMeaning | scripts/audit-assistant-coverage.ts:217-221 | the map holds each mount under its own file, and nothing else |
| Mounts.GroupedInOrder | scripts/audit-assistant-coverage.ts:217-221 | each file has its mounts in the order in which they were added |
| Mounts.ChainMeaning | scripts/audit-assistant-coverage.ts:196-205 | at the end of a chain of calls the prefix is the canonical text of all segments, and permissions and authentication are the sorted unions without duplicates |
| MountSettling.SettlesIffNoGrowingCycle | scripts/audit-assistant-coverage.ts:183-212 | finitely many locations suffice iff no reachable loop of calls lengthens the prefix |
| MountSettling.Shorten | scripts/audit-assistant-coverage.ts:207-210 | without growing loops, every reachable location is reached by at most as many calls as there are route files |
| MountSettling.GrowingCycleNeverSettles | scripts/audit-assistant-coverage.ts:183-212 | a growing loop reaches more locations than any finite set holds |
| MountSettling.SelfMountNeverSettles | scripts/audit-assistant-coverage.ts:196-210 | a route file that mounts itself at "/x" from a seed: the worklist has no finite set of locations to find |
| MountSettling.SettlesOnCallsIff | scripts/audit-assistant-coverage.ts:183-212 | a finite set of locations that holds the seeds and, with a location, the targets of all calls in its file exists iff no reachable loop lengthens the prefix |
| MountResolver.ResolveMounts | scripts/audit-assistant-coverage.ts:155-215 | ends without growing loops; the seeds are recorded, first and in their order; for every recorded mount each `router.use` in its file with a route file as its target has the target recorded at the joined path, everything else recorded comes from such a call of a recorded mount, and all of it is in every set of locations closed under such calls; every recorded mount is what a shortest chain from a seed gives, and distinct seeds give distinct entries |
| MountResolver.MountUses | scripts/audit-assistant-coverage.ts:183-212 | one round of the worklist queues every location one call away and keeps the queue ordered by chain length |
| MountResolver.MountUse | scripts/audit-assistant-coverage.ts:190-211 | after one call with a route file as its target, whatever its path, that location is recorded, by an entry at most one call longer, and every entry behind the seeds still comes from a call of an earlier one |
| MountResolver.AddSeeds | scripts/audit-assistant-coverage.ts:181 | every seed is recorded under its file |
| MountResolver.QueueIsBounded | scripts/audit-assistant-coverage.ts:207-210 | the measure of termination: the queue never outgrows the seeds and any closed set of locations |
| MountResolver.QueueIsShortest | scripts/audit-assistant-coverage.ts:183-212 | a worklist that has run dry recorded, per location, a chain that none is shorter than |
| MountResolver.QueueIsComplete | scripts/audit-assistant-coverage.ts:183-212 | a worklist that has run dry holds the end of every chain of calls |
| MountResolver.QueueFollowsCalls | scripts/audit-assistant-coverage.ts:190-211 | a worklist that has run dry holds, for each of its mounts and each call in its file with a route file as its target, the target at the joined path |
| MountResolver.QueueHoldsOnlyCalls | scripts/audit-assistant-coverage.ts:155-215 | every entry is a seed, or what a call in the file of another entry gives: target, joined path, sorted unions of permissions and authentication |
| MountResolver.QueueIsLeast | scripts/audit-assistant-coverage.ts:155-215 | every entry is in every set of locations that holds the seeds and is closed under the calls |
| MountResolver.DryQueueMeansNoGrowingCycle | scripts/audit-assistant-coverage.ts:183-212 | on a project with a growing loop the worklist never runs dry |
| Columns.StoredError | prisma/schema.prisma:1730 | a stored value is at most half a unit of the last decimal away |
| Columns.StoredKeepsIffFits | prisma/schema.prisma:2285-2290 | a column keeps a value iff it has no further decimals |
| Units.ConvertComposes | src/utils/unitConversion.ts:368-411 | converting through a third unit is converting directly, temperatures included; so going back undoes it |
| Units.ConvertSign | src/utils/unitConversion.ts:368-395 | except between temperature scales, conversion keeps zero and the sign |
| Units.CompatibleIff | src/utils/unitConversion.ts:358-362 | units convert into those listed for their own kind, and into no other |
| Units.WeightsInGrams | src/utils/unitConversion.ts:22-76 | a kilogram is 1000 g, a ton a million, a gram 1000 mg, an ounce 28.3495 g, a pound 453.592 g |
| Units.VolumesInMilliliters | src/utils/unitConversion.ts:78-159 | litre, teaspoon, tablespoon, fluid ounce, cup, pint, quart and gallon in millilitres |
| Units.CountsInUnits | src/utils/unitConversion.ts:161-242 | a dozen is twelve, a case twenty-four, everything else that is counted one |
| Units.LengthsInMeters | src/utils/unitConversion.ts:244-289 | millimetre, centimetre, inch and foot in metres |
| Units.TimesInMinutes | src/utils/unitConversion.ts:311-338 | an hour is 60 minutes, a day 1440 |
| Units.ScalesOfTemperature | src/utils/unitConversion.ts:396-411 | the two temperature scales, in both directions |
| InventoryRecovery.Ledger.FindBackfillNeeded | scripts/recover-inventory-units.ts:62-81 | for each live material of the venue with positive stock and no active batch with something left, and for no other, a plan with its stock, its unit and its own cost per unit |
| InventoryRecovery.Ledger.FindBatchUnitMismatches | scripts/recover-inventory-units.ts:83-116 | the loop computes the plans that InventoryLaws.MismatchFor describes |
| InventoryRecovery.Ledger.SumShares | scripts/recover-inventory-units.ts:140-150 | the loop adds up the converted, simulated remainders of the material's active batches |
| InventoryRecovery.Ledger.FindCurrentStockDrift | scripts/recover-inventory-units.ts:124-167 | the loop computes the plans that InventoryLaws.RecomputeForMaterial describes |
| InventoryRecovery.Ledger.ExecuteBackfill | scripts/recover-inventory-units.ts:181-199 | one new batch per plan, with the column precision, and nothing else changes |
| InventoryRecovery.Ledger.ExecuteBatchNormalize | scripts/recover-inventory-units.ts:201-216 | the planned batches are rewritten row by row up to the first whose cost is not finite, and nothing else changes |
| InventoryRecovery.Ledger.ExecuteRecompute | scripts/recover-inventory-units.ts:218-227 | the planned stocks are written row by row, and nothing else changes |
| InventoryRecovery.Ledger.Recompute | scripts/recover-inventory-units.ts:263-279 | the stocks are rewritten to the sums of the batches, and the outcome is the drift that is left |
| InventoryRecovery.Ledger.Run | scripts/recover-inventory-units.ts:229-283 | a dry run writes nothing and reports the simulated drift; an execution adds, for each live material of the venue with stock and no active batch with something left, exactly one active batch of all its stock at its stored cost per unit, and no other; it stops half way iff it comes to a batch without a finite cost; otherwise every older batch is as it was or rewritten into its material's unit, and the stocks are the sums; it completes if each batch booked elsewhere comes to three decimals, and on exact sums iff they do so together |
| InventoryAborted.AbortsIff | scripts/recover-inventory-units.ts:97-101 | some update of phase 2 has no finite cost to write iff an active batch of the venue in another convertible unit has a converted initial quantity of zero |
| InventoryAborted.AbortsAgain | scripts/recover-inventory-units.ts:201-216 | the batch that stopped an execution is as it was, so the next execution stops as well |
| InventoryAborted.InterruptedKeepsLedger | scripts/recover-inventory-units.ts:181-216 | keys, foreign keys and column precision survive an execution that stops |
| InventoryLaws.BackfillForMaterial | scripts/recover-inventory-units.ts:62-81 | each such material has one backfill plan, with its unit, stock and cost per unit, and no other material has one |
| InventoryRows.BackfilledRows | scripts/recover-inventory-units.ts:181-199 | after phases 1 and 2, and after an execution that stops in phase 2: the old rows in their places, and behind them exactly one active batch per lacking material, in its unit, received and left its whole stock, at its stored cost per unit |
| InventoryRows.OldRows | scripts/recover-inventory-units.ts:201-216 | each older batch: an active one of the venue in another convertible unit has unit, quantities and cost converted and stored, every other is unchanged |
| InventoryRows.RecomputedStocks | scripts/recover-inventory-units.ts:218-227 | each live material of the venue ends with the stored sum of its active batches, converted into its unit, and no other material changes |
| InventoryLaws.MismatchFor | scripts/recover-inventory-units.ts:83-116 | each active batch of the venue in another convertible unit has its own plan into its material's unit, and no other batch has one |
| InventoryLaws.RecomputeForMaterial | scripts/recover-inventory-units.ts:138-165 | a live material is planned to be recomputed iff its simulated stock differs from the recorded one, and to that stock |
| InventoryLaws.AfterNormalizeRow | scripts/recover-inventory-units.ts:201-216 | after the updates every batch row is its own plan's row, or as it was |
| InventoryLaws.ExecutedStock | scripts/recover-inventory-units.ts:257-266 | the stock an execution finds after phases 1 and 2 is the simulated stock plus the rounding of the stored conversions |
| InventoryLaws.RoundingIsBounded | scripts/recover-inventory-units.ts:201-216 | that rounding is at most half a thousandth per pending batch of the material |
| InventoryLaws.DryRunEqualsExecutionIff | scripts/recover-inventory-units.ts:263-266 | the reported plan is the executed plan iff the rounding cancels out for every live material |
| InventoryLaws.DryRunEqualsExecution | scripts/recover-inventory-units.ts:118-123 | so it is when every converted remainder has at most three decimals |
| InventoryFixedPoint.DryRunCanDiffer | scripts/recover-inventory-units.ts:263-266 | a ledger on which the dry run announces another stock than the execution writes |
| InventoryFixedPoint.VerificationPassesIff | scripts/recover-inventory-units.ts:273-278 | the final verification finds no drift iff, for every live material, the active batches that another venue booked in a unit to convert come to at most three decimals |
| InventoryFixedPoint.VerificationCanFail | scripts/recover-inventory-units.ts:275-278 | a ledger on which it fails |
| InventoryFixedPoint.VerificationPassesWhenEachFits | scripts/recover-inventory-units.ts:273-278 | it finds no drift when each of those batches comes to three decimals by itself, and then every summand has at most three decimals |
| InventoryFixedPoint.SecondRunFindsNoMismatch | scripts/recover-inventory-units.ts:83-116 | on every ledger, no batch of the venue is left in a convertible other unit |
| InventorySecondRun.StockAfterRun | scripts/recover-inventory-units.ts:138-154 | the sum of a material's batches after phases 1 and 2, from the ledger before: its converted batches as stored, the others as they are, and its stock if it is backfilled |
| InventorySecondRun.StrandedIff | scripts/recover-inventory-units.ts:62-74 | the run leaves a live material with stock and no open batch iff, on the ledger before it, the material is not backfilled, every active batch has nothing left after conversion and storing, and they add up to a positive stock |
| InventorySecondRun.FixedPointIff | scripts/recover-inventory-units.ts:273-279 | on every ledger: every live stock is the sum of its convertible active batches and a second run finds no backfill, no mismatch and no drift iff on the ledger before the first the batches booked elsewhere come to three decimals and no material is one that it strands |
| InventorySecondRun.SecondRunIsIdleIff | scripts/recover-inventory-units.ts:229-283 | on every ledger: a second execution changes no row iff the ledger before the first holds no material that the first strands, whether or not the verification passed |
| InventorySecondRun.SecondRunBackfillsIff | scripts/recover-inventory-units.ts:62-81 | the second run backfills iff the ledger before the first holds a material that the first strands |
| InventorySecondRun.TwoRunsSuffice | scripts/recover-inventory-units.ts:229-283 | on every ledger a third execution changes no row |
| InventorySecondRun.StrandedMeansMixedScales | scripts/recover-inventory-units.ts:83-96 | a material is stranded only by a batch of another venue that is spent in its own scale of temperature and positive in the material's |
| InventorySecondRun.StrandedMeansSpentCelsius | scripts/recover-inventory-units.ts:83-96 | with no negative remainders, a live material is stranded iff it is not backfilled, all its batches stay closed, and one is a spent batch of degrees Celsius from another venue for a material kept in degrees Fahrenheit |
| InventorySecondRun.NoScalesNoneStrand | scripts/recover-inventory-units.ts:83-96 | without batches of other venues in the other scale of temperature no material is stranded |
| InventorySecondRun.AtHomeReachesFixedPoint | scripts/recover-inventory-units.ts:273-279 | without batches of other venues in a unit to convert both conditions of the fixed point hold |
| InventorySecondRun.SecondRunCanBackfill | scripts/recover-inventory-units.ts:62-81 | a ledger whose second run backfills: a spent batch of 0 degrees Celsius, booked elsewhere, of a material in degrees Fahrenheit |
| InventoryFixedPoint.RecoveryKeepsLedger | scripts/recover-inventory-units.ts:181-227 | keys, foreign keys and column precision survive an execution |
| InventoryFixedPoint.BackfilledDriftsIff | scripts/recover-inventory-units.ts:151-165 | a backfilled material is reported as drifting iff its own active batches add up to something |
| InventoryFixedPoint.BackfilledNeverDrifts | scripts/recover-inventory-units.ts:151-165 | so never with non-negative remainders and without mixed temperature scales |
| InventoryFixedPoint.BackfilledCanDrift | scripts/recover-inventory-units.ts:151-165 | a ledger on which a backfilled material drifts: the same batch booked at home |
| InventoryValue.NormalizingConservesValue | scripts/recover-inventory-units.ts:97-101 | the plan, outside temperatures: its exact cost and quantities are worth what the batch was, received and left |
| InventoryValue.NormalizingTemperatures | scripts/recover-inventory-units.ts:97-101 | the plan between temperature scales: what is left is revalued by the offset of the scales, and keeps its value iff nothing was drawn or the cost is zero |
| InventoryValue.WrittenValue | scripts/recover-inventory-units.ts:201-211 | the row as written, outside temperatures: its values differ from those of the batch by exactly what storing cost and quantity changed |
| InventoryValue.WrittenValueKeptIff | scripts/recover-inventory-units.ts:201-211 | when the converted quantities fit three decimals, the written row keeps the received value iff the converted cost fits four, and the remaining value iff that, or nothing is left |
| InventoryValue.WrittenValueIsBounded | scripts/recover-inventory-units.ts:201-211 | outside temperatures, whatever the quantities, the written values are off by at most half a thousandth of the cost and half a ten-thousandth of the stored quantity |
| InventoryValue.WrittenTemperature | scripts/recover-inventory-units.ts:201-211 | the row as written between temperature scales: the received value changes by the storing alone, the remaining value by the offset of the scales as well |
| InventoryValue.ExecutedBatch | scripts/recover-inventory-units.ts:257-261 | after phases 1 and 2 each batch of the ledger is its own normalised row, or as it was |
| InventoryValue.WrittenValueCanChange | scripts/recover-inventory-units.ts:101 | a kilogram at 12.3456 is written as 1000 g at 0.0123, worth 12.3 |
| InventoryValue.TemperatureIsRevalued | scripts/recover-inventory-units.ts:97-101 | a half-drawn batch in degrees Celsius whose remaining value rises from 5 to 8.2 |
| CostBook.Database.PlanBatchFixesOf | scripts/recover-cost-per-unit.ts:86-103 | the inner loop plans the batches that share the old cost of one material |
| CostBook.Database.PlanBatchFixes | scripts/recover-cost-per-unit.ts:83-106 | the outer loop does so for every fixed material |
| CostBook.Database.PlanLines | scripts/recover-cost-per-unit.ts:123-144 | the loop computes the total over the convertible lines at post-fix cost, and the lines whose stored cost differs |
| CostBook.Database.PlanRecipeFixes | scripts/recover-cost-per-unit.ts:108-157 | a fix for each recipe of the venue that touches a fixed material and differs from its plan |
| CostBook.Database.Apply | scripts/recover-cost-per-unit.ts:197-216 | the transaction writes exactly the planned rows, with the column precision |
| CostBook.Database.Run | scripts/recover-cost-per-unit.ts:159-218 | a dry run writes nothing; an execution leaves the tables of CostRows.RecoveredRows, well-formed |
| CostLaws.LineCostMeaning | scripts/recover-cost-per-unit.ts:126-138 | a line has a cost iff it has a quantity in the unit of its material; all portions together then cost what that quantity costs, and fixing the material divides the cost by a thousand |
| CostLaws.QuantityConvertsBack | scripts/recover-cost-per-unit.ts:130-137 | a line has such a quantity iff the units are compatible, and it converts back to the quantity of the line |
| CostLaws.LineCostIgnoresUnit | scripts/recover-cost-per-unit.ts:130-138 | a line costs the same in whatever compatible unit it is written |
| CostLaws.ExecutedRows | scripts/recover-cost-per-unit.ts:197-216 | the transaction row by row: every row is its own fix, or as it was |
| CostRows.RecoveredRows | scripts/recover-cost-per-unit.ts:66-157 | the three tables, from the columns before: a live material of the venue in grams or millilitres that costs more than one costs a thousandth, and so does its average if above one; so do the active batches at its old cost; and exactly the recipes of the venue with such a material get the new cost per line and in total |
| CostLaws.IsFixedIff | scripts/recover-cost-per-unit.ts:59-81 | a material is in the fix set iff it is live, of the venue, in grams or millilitres, and costs more than one |
| CostLaws.SharesOldCostIff | scripts/recover-cost-per-unit.ts:89-102 | of the batches of a fixed material exactly the active ones at its old cost are divided |
| CostLaws.BatchEndsAtNewCost | scripts/recover-cost-per-unit.ts:83-106 | an active batch of a fixed material at its old or its divided cost ends at the material's new cost |
| CostFixedPoint.RecipesAfterTransaction | scripts/recover-cost-per-unit.ts:108-157 | every recipe of the venue with a fixed material ends with the planned total and line costs, every other is unchanged; recomputing from the written rows gives the planned total plus the rounding of the new costs |
| CostFixedPoint.PlanEqualsRecomputingIff | scripts/recover-cost-per-unit.ts:128-129 | planning from the rows before the fix equals recomputing after it iff the rounded material costs add nothing to the recipe |
| CostFixedPoint.PlanCanDifferFromRecomputing | scripts/recover-cost-per-unit.ts:128-139 | a recipe on which they differ: one gram of a material recorded at 25.55 |
| CostLaws.CostRoundingIsBounded | scripts/recover-cost-per-unit.ts:199-204 | the difference is at most half a ten-thousandth per unit of fixed material and portion |
| CostLaws.NoCostRounding | scripts/recover-cost-per-unit.ts:128-138 | it is zero when the divided costs have at most four decimals |
| CostFixedPoint.LineCostsAgreeWithTotal | scripts/recover-cost-per-unit.ts:208-213 | the stored costs of n lines add up to the stored total within n + 1 half units of the fourth decimal |
| CostFixedPoint.StillAboveOneIff | scripts/recover-cost-per-unit.ts:59-64 | a divided and stored cost is still above one iff the old cost was at least 1000.05 |
| CostFixedPoint.FirstRunIsFixedPointIff | scripts/recover-cost-per-unit.ts:159-218 | one execution is a fixed point iff no gram or millilitre cost of the venue's live materials reached 1000.05 |
| CostFixedPoint.SecondRunCanDivide | scripts/recover-cost-per-unit.ts:59-64 | a gram cost of 2000 is divided in the first run and again in the second |
| CostFixedPoint.TwoRunsSuffice | scripts/recover-cost-per-unit.ts:159-218 | after two executions nothing changes any more |
| CostFixedPoint.IdleWithoutFixes | scripts/recover-cost-per-unit.ts:167-216 | an execution that finds no material to divide writes nothing at all |
| CostFixedPoint.ExecutedKeepsBook | scripts/recover-cost-per-unit.ts:197-216 | keys and column precision survive an execution |
| Preflight.RunPreflight | scripts/preflight-reservation-staff-rollout.ts:168-185 | exit code zero iff every query returns no row, with one reading of the clock for every test of a row; after exit code zero the tables are ready at every instant from the last reading on, and tables ready at the first reading give exit code zero: no two different bookings of one person in one organisation, pending, confirmed or checked-in reservations and scheduled sessions, share time when neither is over, staff belong to their venues, and the first product leads; the counts are the numbers of rows |
| Preflight.AllClearMeansReady | scripts/preflight-reservation-staff-rollout.ts:168-185 | after exit code zero: two different reservations, a reservation and a session, or two sessions, live by status, of one person at venues of one organisation, both ending after the run, do not overlap; whoever is booked is staff of the venue, and the first listed product leads |
| Preflight.ReadyMeansAllClear | scripts/preflight-reservation-staff-rollout.ts:168-185 | conversely, tables of which that holds when the run begins give exit code zero |
| Preflight.OverlapQueriesExact | scripts/preflight-reservation-staff-rollout.ts:43-106 | at one instant the three overlap queries are empty iff nobody's open bookings within an organisation overlap; PreflightMeaning.ReservationIsBooked says which those are |
| PreflightMeaning.ExitZeroMeansNoDoubleBooking | scripts/preflight-reservation-staff-rollout.ts:168-185 | after exit code zero no two of a person's open bookings within an organisation overlap at the end of the run, although every test of a row reads the clock anew |
| PreflightMeaning.DoubleBookingForcesExitOne | scripts/preflight-reservation-staff-rollout.ts:175-184 | a double booking still open at the end of the run rules out exit code zero |
| PreflightMeaning.ReservationIsBooked | scripts/preflight-reservation-staff-rollout.ts:63-67 | a reservation is among its person's open bookings iff it is pending, confirmed or checked in, and not over |
| PreflightMeaning.SessionIsBooked | scripts/preflight-reservation-staff-rollout.ts:79-83 | a class session is iff it is scheduled and not over |
| PreflightMeaning.AllClearIff | scripts/preflight-reservation-staff-rollout.ts:13-120 | with the clock standing still the gate is clear iff no two bookings clash, staff belong to their venues, and lead products agree, all said on the columns |
| PreflightMeaning.ReservationPairsCountedOnce | scripts/preflight-reservation-staff-rollout.ts:48-61 | the count is the number of unordered overlapping pairs of reservations |
| PreflightMeaning.SessionPairsCountedOnce | scripts/preflight-reservation-staff-rollout.ts:91-104 | likewise for class sessions |
| PreflightMeaning.AtMostOneRunning | scripts/preflight-reservation-staff-rollout.ts:43-106 | after exit code zero, at every later instant at most one of a person's live bookings is running |
| PreflightMeaning.ScheduleFits | scripts/preflight-reservation-staff-rollout.ts:53-54 | bookings that do not overlap fit, one after the other, between the earliest start and the latest end |
| PreflightMeaning.OpenBookingsFit | scripts/preflight-reservation-staff-rollout.ts:43-106 | after exit code zero the durations of a person's open bookings add up to no more than the time they span |
| ShiftScript.Database.FilterEligible | scripts/backfill-refund-shift-totals.ts:51-63 | exactly the payments that are refunds, have a shift, were created strictly before the cutoff, and whose marker is not `true` |
| ShiftScript.Database.Group | scripts/backfill-refund-shift-totals.ts:72-79 | one aggregate per shift with refunds: the sum of their absolute amounts and their number |
| ShiftScript.Database.DecrementShifts | scripts/backfill-refund-shift-totals.ts:113-122 | every existing shift with an aggregate falls by its delta, missing shifts are skipped |
| ShiftScript.Database.MarkRefunds | scripts/backfill-refund-shift-totals.ts:123-131 | the marker updates in order, totals untouched |
| ShiftScript.UpdatesMarkEligible | scripts/backfill-refund-shift-totals.ts:123-131 | updating the read rows by key marks exactly the eligible payments |
| ShiftScript.Database.Run | scripts/backfill-refund-shift-totals.ts:44-136 | a dry run writes nothing; an execution changes exactly the refunds with a shift from before the cutoff whose marker is not `true`, by the marker alone, and each existing total falls by the absolute amounts of those of its shift; which is the backfill of one refund after the other |
| ShiftBackfill.GroupedEqualsOneByOne | scripts/backfill-refund-shift-totals.ts:72-79 | one decrement per shift is one decrement per refund |
| ShiftBackfill.TakeOffAllMeaning | scripts/backfill-refund-shift-totals.ts:113-122 | each existing total falls by the absolute amounts of its own refunds |
| ShiftBackfill.ExecutedIsBackfilled | scripts/backfill-refund-shift-totals.ts:51-131 | the same of the refund-by-refund reference, for all tables |
| ShiftHistories.ExactlyOnce | scripts/backfill-refund-shift-totals.ts:51-132 | over every history of runs, arrivals and changes by others, a shift's total has fallen by exactly those of its payments that were marked since they arrived; and a row was marked iff it arrived as a refund with a shift and no marker, and a run with a later cutoff found it |
| ShiftHistories.ChangedIff | scripts/backfill-refund-shift-totals.ts:51-63 | the second half of it, row by row: every change is such a mark, and no run misses a refund it should mark |
| ShiftHistories.TwoRunsAreOne | scripts/backfill-refund-shift-totals.ts:9-12 | without new refunds two runs are one run at the later cutoff, so a repeated run changes nothing |
| ShiftHistories.MissingShiftIsMarked | scripts/backfill-refund-shift-totals.ts:114-131 | an eligible refund of a missing shift is marked although nothing was taken off |
| CustomItems.RepairedIff | scripts/backfill-missing-custom-items.ts:112-144 | a scanned order is repaired iff it has no refund, no custom item, and payments at least two cents above its items |
| CustomItems.NeedsFixIff | scripts/backfill-missing-custom-items.ts:67-144 | on the columns: the orders repaired are those of the scope with a regular, completed payment, no such payment refunded, a product on every item, and such payments more than a cent above the items |
| CustomItems.SkippedIff | scripts/backfill-missing-custom-items.ts:118-131 | why a scanned order is skipped: a refunded payment first, then an item without a product |
| CustomItems.OneCentIsSkipped | scripts/backfill-missing-custom-items.ts:135-140 | an order that is one cent short is skipped |
| CustomItems.RepairBalances | scripts/backfill-missing-custom-items.ts:201-228 | a repaired order's items add up to its payments, its total to subtotal and tip, its new line comes after all others, and it will be skipped next time |
| CustomItems.SequencesBelow | scripts/backfill-missing-custom-items.ts:148 | the next sequence number is above every existing one and not negative |
| CustomItems.VerdictsPartition | scripts/backfill-missing-custom-items.ts:112-161 | repaired and skipped orders partition the scanned ones, and two of the skip counts are always zero |
| CustomItems.OrdersAfter | scripts/backfill-missing-custom-items.ts:201-235 | every order ends repaired by its own fix, or as it was |
| CustomItems.AfterAddsItems | scripts/backfill-missing-custom-items.ts:201-235 | exactly those orders, unless their transaction fails, get one item without a product for the difference, numbered behind all others, a subtotal of what was paid, and a total with the tip |
| CustomItems.FixesAreLacking | scripts/backfill-missing-custom-items.ts:112-161 | the fixes are as many as those orders |
| CustomItems.SecondVerdict | scripts/backfill-missing-custom-items.ts:127-131 | after a run an order still asks for repair iff its own transaction failed |
| CustomItems.SecondRunFindsFailures | scripts/backfill-missing-custom-items.ts:18-19 | a second run finds nothing iff no transaction of the first failed |
| CustomItems.Store.Classify | scripts/backfill-missing-custom-items.ts:112-161 | the loop computes the fixes and the five skip counts |
| CustomItems.Store.Repair | scripts/backfill-missing-custom-items.ts:201-235 | one transaction per fix, failures rolled back and counted |
| CustomItems.Store.Run | scripts/backfill-missing-custom-items.ts:56-239 | a dry run writes nothing; otherwise exactly the orders that lack an item get one, unless their transaction fails; the report counts them, and its counts add up |
| RefundCosts.FullRefundCancels | scripts/backfill-refund-transaction-costs.ts:75-85 | the computed proportions, before they are stored: refunds that add up to the payment cancel its amount, provider cost, venue charge and gross profit |
| RefundCosts.WrittenFeesCancelIff | scripts/backfill-refund-transaction-costs.ts:100-104 | as written, a fixed fee of a refunded payment cancels iff there was a single full refund, or no fee |
| RefundCosts.WrittenCancelIff | scripts/backfill-refund-transaction-costs.ts:92-109 | whichever way exact halves fall, the written reversals of a payment refunded in full cancel a cost column iff the rounding of its proportions adds up to nothing |
| RefundCosts.OnlyHalvesGoEitherWay | scripts/backfill-refund-transaction-costs.ts:76-84 | the side on which exact halves fall moves a column by at most one unit of the fourth decimal for each; without exact halves it changes neither the rounding nor whether the column cancels |
| RefundCosts.TwoRefundsCancelIff | scripts/backfill-refund-transaction-costs.ts:92-109 | two refunds that add up to the payment cancel a column exactly, unless its proportions are exact halves that fall the same way |
| RefundCosts.NoColumnChange | scripts/backfill-refund-transaction-costs.ts:99-106 | the rounding adds up to nothing when every proportion has at most four decimals |
| RefundCosts.FullReversalCancels | scripts/backfill-refund-transaction-costs.ts:92-109 | one written refund in full, of a row with four-decimal columns, cancels every column exactly, fixed fees included |
| RefundCosts.WrittenBalancedIff | scripts/backfill-refund-transaction-costs.ts:92-109 | the written reversal of a balanced row is balanced iff the rounding of its columns makes up for the share of the fixed fees that a partial refund leaves out; in full it is balanced |
| RefundCosts.NoHalvesWrittenTheSame | scripts/backfill-refund-transaction-costs.ts:76-106 | where no proportion of a refund is an exact half, its row is written the same whichever way halves fall |
| RefundCosts.WrittenCanMiss | scripts/backfill-refund-transaction-costs.ts:99 | two halves of a provider cost of 0.0001 do not cancel it, whichever way they fall |
| RefundCosts.WrittenCanUnbalance | scripts/backfill-refund-transaction-costs.ts:99-106 | half of a balanced row with equal fixed fees is written unbalanced whichever way halves fall, although the computed reversal balances |
| RefundCosts.FeesCanStay | scripts/backfill-refund-transaction-costs.ts:100 | two halves leave a fixed fee standing |
| RefundCosts.ReversalBalancedIff | scripts/backfill-refund-transaction-costs.ts:84-104 | the computed reversal, before it is stored, of a balanced row is balanced iff it is full, empty, or the two fixed fees are equal |
| RefundCosts.WrittenNearExact | scripts/backfill-refund-transaction-costs.ts:92-109 | whichever way exact halves fall, a written column is within half a unit of the fourth decimal per refund of the exact one |
| RefundCosts.WrittenRefundsCancel | scripts/backfill-refund-transaction-costs.ts:92-109 | the written reversals of a payment refunded in full cancel its amount, and its cost columns up to half a unit of the fourth decimal per refund |
| RefundRuns.RunProcesses | scripts/backfill-refund-transaction-costs.ts:46-116 | after a run over refunds of any payments with any inserts failing: older rows untouched, no rows but those of refunds, and every refund of a payment with costs has its written reversal, or no row if its insert failed |
| RefundCosts.WrittenReverses | scripts/backfill-refund-transaction-costs.ts:92-109 | the written row: terms copied, minus the amount refunded, minus the refunded part of the three cost columns to the nearest of the fourth decimal, and minus the fixed fees with a full refund only |
| RefundRuns.RunAddsReversals | scripts/backfill-refund-transaction-costs.ts:46-116 | after a run every new row is that reversal of the row of the payment its refund names, refunds of refunds included, and only a failing insert leaves a refund of a payment with costs without one |
| RefundRuns.RowIffSuccess | scripts/backfill-refund-transaction-costs.ts:56-115 | a refund has a row after the run iff it was counted as a success |
| RefundRuns.ReversalsOfPayment | scripts/backfill-refund-transaction-costs.ts:46-111 | among the refunds of all other payments, those of one payment end with exactly its reversals |
| RefundRuns.RunCancelsPayment | scripts/backfill-refund-transaction-costs.ts:46-111 | a payment refunded in full by refunds of a mixed run: their rows cancel its amount, its cost columns up to half a unit per refund, and a column exactly iff the rounding of its proportions adds up to nothing |
| RefundRuns.SecondRunIsIdleIff | scripts/backfill-refund-transaction-costs.ts:25-33 | a second run writes nothing iff, among the refunds pending before the first, no chain of refunds of refunds from a payment with costs ends in one whose insert fails, or that is listed before the refund it refunds |
| RefundRuns.FailedInsertsComeBack | scripts/backfill-refund-transaction-costs.ts:25-33 | when no pending refund refunds another, a second run writes nothing iff no pending refund of a payment with costs failed to be inserted in the first |
| RefundRuns.SecondRunCanWrite | scripts/backfill-refund-transaction-costs.ts:91-115 | a refund whose insert failed is written by the second run |
| RefundRuns.Database.ProcessRefunds | scripts/backfill-refund-transaction-costs.ts:42-117 | the loop: successes, skips and errors are what the rows written before each refund decide and partition the refunds; a dry run writes nothing |
| RefundRuns.Database.Run | scripts/backfill-refund-transaction-costs.ts:18-125 | a dry run writes nothing; a live run leaves older rows untouched and adds reversals alone, as RefundRuns.RunAddsReversals says; every pending refund of a payment with costs has its written reversal, or no row if its insert failed |
| SeedShifts.Rounded | scripts/seed-la-ribera-demo.ts:886 | a nearest integer |
| SeedShifts.MakeItems | scripts/seed-la-ribera-demo.ts:1605-1629 | one item row per line, tax and total rounded to the nearest cent |
| SeedShifts.MakeOrder | scripts/seed-la-ribera-demo.ts:1549-1653 | the order row rounds once, on the subtotal, and its payment pays exactly total and tip |
| SeedShifts.LineRoundingBound | scripts/seed-la-ribera-demo.ts:1567-1569 | rounding n lines one by one and rounding the order once differ by at most 12 (n + 1) / 25 cents, less than (n + 1) / 2, in totals and in taxes |
| SeedShifts.QuarterOrdersAreExact | scripts/seed-la-ribera-demo.ts:1605-1623 | they agree when every line is a multiple of 25 cents, whole pesos in particular |
| SeedShifts.FeeAndNetAddUp | scripts/seed-la-ribera-demo.ts:1647-1649 | whichever way half cents go, fee and net amount of a payment add up to what was paid unless a card payment leaves half a cent on both sides, and are never off by more than a cent |
| SeedShifts.HalfCentsGoEitherWay | scripts/seed-la-ribera-demo.ts:1647-1649 | with half a cent on both sides, nearest cents can come to one too few, to the amount, and to one too many |
| SeedShifts.CashAndCardAreAll | scripts/seed-la-ribera-demo.ts:1655-1658 | cash and card together are all amounts and tips |
| SeedShifts.SeedDay | scripts/seed-la-ribera-demo.ts:1526-1699 | the shift closes on its payments: sales, tips, cash and card are their sums, declared cash differs by the recorded difference, and ending cash is the opening cash and the declared cash |
| SeedShifts.SeedHistory | scripts/seed-la-ribera-demo.ts:1517-1701 | so for every day, with a difference of -37.50 six days back, 12.00 thirteen days back and none on any other day, and all shifts together close on all payments |

## Left out

- Preconditions: rows have their primary keys and batches their materials; quantities and costs in the tables have the decimals of their columns; recipes have a positive yield, which the request schema enforces (`src/schemas/dashboard/inventory.schema.ts:206`).
- MountResolver.ResolveMounts: requires that no reachable loop of calls lengthens the prefix, because on every other project the source's worklist never ends (MountResolver.DryQueueMeansNoGrowingCycle); its decreasing measure is the closed set that MountSettling.SettlesIffNoGrowingCycle provides.
- NameDrift.FindNameDrift: takes the list of known names as distinct strings of the extraction pattern; reading the files and the other checks of the audit are not modelled.
- InventoryValue.NormalizingConservesValue: is about the planned values; InventoryValue.WrittenValue adds what the columns change. The planned cost of a batch whose converted initial quantity is zero is not finite, as in the source, and InventoryAborted says what its write does to the run.
- InventoryFixedPoint.VerificationPassesIff: is about exact sums, where the source adds decimals of twenty digits; InventoryFixedPoint.VerificationPassesWhenEachFits does not depend on that. The same holds of InventorySecondRun.FixedPointIff and of the outcome of InventoryRecovery.Ledger.Run.
- InventoryRecovery.Ledger.Run: takes it that the write of a cost that is not finite fails before anything of that row is written.
- CostFixedPoint.TwoRunsSuffice: uses that the cost columns hold less than a million; elsewhere the digits a column allows before the point are not bounded.
- PreflightMeaning.ScheduleFits: requires bookings that do not end before they start.
- ShiftHistories.ExactlyOnce: speaks of the refunds marked; a refund of a missing shift is marked too, although nothing was taken off.
- RefundCosts.FullRefundCancels: is about the computed proportions; RefundCosts.WrittenCancelIff says what the columns keep of them.
- RefundCosts.ReversalBalancedIff: is about the computed reversal; RefundCosts.WrittenBalancedIff says what the columns keep of it.
- Extraction by regular expressions, comment stripping, file walking, imports and the endpoint classification of the coverage audit: each file's uses, with the permissions found in them, are inputs.
- Floating point: cents are integers, quantities and costs exact reals; binary rounding of sums, the `::float` cast of the backfill query and the precision limit of Decimal are not modelled. Where a product of doubles is rounded to cents or to the fourth decimal, as in fees, net amounts and refunded shares, the model allows either way at exact halves; that the error of the doubles is too small to reach a half from elsewhere is taken for granted.
- Database access, transactions that abort, concurrent writers, isolation levels, console output, argument parsing and environment checks; a transaction is one atomic step, and failing inserts are inputs.
- Batch numbers, received dates, names and notes of rows; a new batch only gets a key that no batch has.
- Order of rows: tables are sequences in the order the query returns them; the report order of the shift preview and of actionable details is not modelled.
- Strings are sequences of characters; UTF-16 code units and locale are not distinguished.
- Random choices, customers, tables, reviews, stock and reservations of the demo seed: choices are inputs, the rest is static data.
- The permission catalogue checks, refund and settlement services, and the check, list and inspect scripts: their bodies are elsewhere, or one reading settles them.
