# shield_tester in Dafny

This is a model of the core of shield_tester, a tool for Elite Dangerous. Given a ship, a damage profile and a number of utility slots, the tool searches every engineered shield generator of a class against every multiset of shield booster variants. It reports the loadout that survives longest. A loadout whose regeneration meets the incoming damage "never dies". Among those, the loadout with the lowest net damage wins.

The model follows the Python modules one by one:

| Dafny module | file | what it holds |
|---|---|---|
| `ShieldTesters` | `shield_tester.dfy` | The engine as a class: the `cpu_cores` setter, the test-count estimate, the booster short list, the choice of generator class, the creation of loadouts, the sequential branch of `compute` and `import_loadout`. |
| `LoadoutImport` | `loadout_import.dfy` | The two loops of `import_loadout`: reading slot names, fitting modules and removing boosters and generators. |
| `TestCases` | `test_case.dfy` | The `TestCase` record as a class, and the chunk evaluator `TestCase.test_case`, with the ranking it implements. |
| `ShieldBoosterVariants` | `shield_booster_variant.dfy` | Loading a booster, its template slot, and booster stacking with the diminishing-returns remap. |
| `ShieldGenerators` | `shield_generator.dfy` | Loading a generator, the engineering rules, the variant grid, the modifier export and the module entry of the loadout event. |
| `LoadOuts` | `load_out.dfy` | Loadout values, the shield strength of a loadout, and the loadout event. |
| `StarShips` | `star_ship.dfy` | Loading a ship, its internal slot layout, and the free-slot lookup. |
| `Utility` | `utility.dfy` | Aligned text output. |
| `Collections`, `Combinatorics`, `Json`, `Wrappers` | | Python's ordered dicts with integer keys, `list.sort` and `list.remove`, `itertools.combinations_with_replacement`, `chunks`, factorials, `str` and `f"{:02d}"` of integers, JSON values, and Option/Result. |

Conventions:
- Numbers are `real`.
- `math.isclose(a, b, rel_tol=1e-8)` is passed in as a parameter `close`. `ShieldTesters.IsClose` writes out its meaning over the reals. Theorems that need a total order assume `Exact(close)`, which means equality.
- `round(x, 4)`, the logarithm and `x ** y` of the mass curve are function parameters (`CurveMath`, `round4`).
- The exceptions the source raises on the modelled paths are `Result` errors, with the condition under which each is raised (the exceptions that are not are listed under "## Left out"). Examples:
  - the division by zero of a net dps of 0;
  - the division by zero and the `math.log`/`math.pow` domain errors of the strength curve;
  - `len(None)`;
  - the factorial of a negative number;
  - a `KeyError` in the generator tables;
  - `list.remove` of a slot that is not free;
  - `int()` of a character that is not a digit.
- Objects the source mutates in place are classes with `modifies` clauses: `ShieldTester` and `TestCase`. Objects the source deep-copies before changing them are datatypes: ships, generators, boosters and loadouts.
- The cancel flag is set from another thread. It is read through an oracle `observe: nat -> bool`. `observe(i)` is what the check before chunk `i` sees, and `observe(|chunks|)` is the check after the loop.

## Model

| member | source | states |
|---|---|---|
| ShieldTesters.ShieldTester.constructor | ShieldTester.py:47-59 | A new engine has no ships, imports, boosters or generators. It uses `os.cpu_count()` cores and no cancel is pending. |
| ShieldTesters.ShieldTester.SetCpuCores | ShieldTester.py:65-67 | The core count becomes `max(1, min(os.cpu_count(), abs(value)))`. |
| ShieldTesters.ClampCores | ShieldTester.py:67 | The clamped count is at least 1 and at most the machine's count. It is `abs(value)` when that lies in range, and the machine's count (or 1) when `abs(value)` is larger. |
| ShieldTesters.ShieldTester.Cancel | ShieldTester.py:418-419 | After `cancel()` the flag is raised. |
| ShieldTesters.NumberOfTests | ShieldTester.py:74-90 | The result is 0 without a test case or booster variants. Otherwise it fails exactly when the loadout list is missing (`len(None)`) or the booster count is negative (the factorial raises). On success it is C(n+k-1, k) times min(\|loadouts\|, prelim), with prelim < 1 counting as \|loadouts\|, and equals the number of enumerated combinations times that factor. k is not clamped. |
| ShieldTesters.CountTests | ShieldTester.py:87-89 | The factorial quotient, truncated by `int`, is exactly C(n+k-1, k) * m, the number of k-multisets of n variants times m. |
| ShieldTesters.Callback | ShieldTester.py:313-324 | The callback always holds either the old best or the incoming result. |
| ShieldTesters.CallbackKeepsSurvivor | ShieldTester.py:315-319 | Once a result whose ship never dies is held, a result whose ship dies never replaces it. This holds for the sentinel incoming dps and for any other non-negative one. |
| ShieldTesters.IsCloseKeepsSign | ShieldTester.py:317 | Under `math.isclose` with relative tolerance, a negative number is close only to negative numbers. |
| ShieldTesters.CallbackStart | ShieldTester.py:311-324 | The first evaluated result always replaces the starting `TestResult(survival_time=0)`. |
| ShieldTesters.CallbackPick | ShieldTester.py:313-324 | With exact closeness, the callback keeps the better of two evaluated results by the evaluator's own ranking, with ties going to the held result. |
| ShieldTesters.RunFound | ShieldTester.py:358-371 | The loop returns a result exactly when no check sees the flag and no chunk raises. The result is then the fold of the chunks' results through the callback, after exactly one CALLBACK_STEP per chunk. |
| ShieldTesters.RunCancelledAt | ShieldTester.py:358-363 | When the flag is first seen before chunk c, the loop returns cancelled after exactly c step callbacks and one cancel callback. No chunk from c on is evaluated. |
| ShieldTesters.FoldOrigin | ShieldTester.py:358-365 | A folded best is the starting value or the evaluation of one of the chunks. |
| ShieldTesters.CombinationsValid | ShieldTester.py:247 | Every enumerated combination has k indices, all below the number of variants. There is at least one combination when there is a variant. |
| ShieldTesters.ChunksAllValid | ShieldTester.py:328-330 | The chunks of valid combinations are valid and non-empty, and together they are the combinations. |
| ShieldTesters.ChunkingAgrees | ShieldTester.py:328-365 | With exact closeness and well-posed candidates, cutting the combinations into chunks of any positive size and folding the chunks' bests through the callback gives exactly one evaluation of all the combinations. |
| ShieldTesters.FoldChunksLeftMax | ShieldTester.py:358-365 | Folding chunks after a held best of candidates A gives the best of A followed by all the chunks' candidates. |
| ShieldTesters.SearchFinds | ShieldTester.py:358-371 | Without a cancel, the chunk loop finds what one evaluation of every combination finds, after one CALLBACK_STEP per chunk of MP_CHUNK_SIZE. |
| ShieldTesters.PrelimLists | ShieldTester.py:261-287 | The loop of the pre-filter fails with the division by zero exactly when some loadout's unboosted net dps is 0. Otherwise it returns (survival time, loadout) for ships that die and (net dps, loadout) for ships that never die, both in list order. |
| ShieldTesters.Prefilter | ShieldTester.py:255-295 | The pre-filter is the loop followed by one stable sort and one slice. It computes `Prefiltered`. |
| ShieldTesters.CollectSound | ShieldTester.py:277-284 | Every collected pair is a loadout of the list together with its key. |
| ShieldTesters.CollectComplete | ShieldTester.py:277-284 | Every loadout of the list that has a key is collected with that key. |
| ShieldTesters.CollectMultiset | ShieldTester.py:277-284 | No loadout is collected more often than it occurs in the list. |
| ShieldTesters.CollectExactly | ShieldTester.py:277-284 | The collected pairs are exactly the keyed loadouts with their keys. Each loadout appears no more often than in the list. |
| ShieldTesters.PrefilterKeeps | ShieldTester.py:255-295 | The pre-filter fails exactly on an unboosted net dps of 0. Otherwise it keeps a sub-multiset of the loadouts, at most prelim of them, and at least one when there is a loadout and prelim > 0. |
| ShieldTesters.PrefilterChoice | ShieldTester.py:277-295 | When some ship never dies, the pre-filter keeps only such ships, and no kept one has a higher net dps than a dropped one. Otherwise it keeps only dying ships, and no kept one lasts shorter than a dropped one. The keys are the unboosted stats. Among loadouts of equal key, the kept ones are the earliest in list order. |
| ShieldTesters.KeptByKey | ShieldTester.py:290-295 | Sorting and slicing keeps loadouts of the list under their own keys. No kept key comes after a dropped one in the sort direction. |
| ShieldTesters.ClampBoosters | ShieldTester.py:244-245 | The booster count is clamped to [0, utility slots]. It is unchanged inside that range, the slot count above it, and 0 below it. |
| ShieldTesters.ShieldTester.Compute | ShieldTester.py:210-383 | `compute` resets the flag and returns None without a test case, boosters or loadouts. Otherwise its outcome, the callbacks it makes and the test case's new loadout list are those of `ComputeSpec`: no callback at all when none is given, and the two progress messages only with a message queue. |
| ShieldTesters.ShieldTester.RunChunks | ShieldTester.py:358-365 | The sequential chunk loop computes `Run` from chunk 0 with the starting result. |
| ShieldTesters.ComputeAgreesWithOneEvaluation | ShieldTester.py:230-383 | Without a cancel and with exact closeness, `compute` finds what one evaluation of all C(n+k-1, k) combinations of the clamped count finds against the (pre-filtered) loadouts. With a callback, its callbacks are one message when there is a queue, one step per chunk, then one more message with a queue. Without a callback there are none. |
| ShieldTesters.ComputeCancelledFirst | ShieldTester.py:230-371 | A cancel seen before the first chunk means no chunk is evaluated. With a callback, the only callbacks are the opening message (with a queue) and CALLBACK_CANCELLED. |
| ShieldTesters.ComputeResultShape | ShieldTester.py:244-247 | A found loadout is one of the (pre-filtered) loadouts fitted with exactly as many boosters as the clamped count. |
| ShieldTesters.ShieldTester.SetBoostersToTest | ShieldTester.py:131-141 | Without a test case the call raises. Otherwise the test case receives the loaded variants, less those that may be skipped when the short list is asked for. |
| ShieldTesters.ShortListExactly | ShieldTester.py:139 | A variant is on the list exactly when it is loaded and not (skippable and short list). Without the short list, the list is every variant in load order. |
| ShieldTesters.MinClass | ShieldTester.py:170-176 | The search returns the first class of the list whose first "normal" generator takes a heavier hull than the ship's, with no earlier class fitting. It returns 0 when none fits. |
| ShieldTesters.MinClassLeast | ShieldTester.py:171-176 | Over the sorted keys of the "normal" table, the class found is the least class that fits, or 0 when no class fits. |
| ShieldTesters.CompatibleClassesMeaning | ShieldTester.py:163-181 | A non-zero answer is (least fitting class, class of the first free internal slot for the ship's highest class), with 0 < min <= max. The answer is (0, 0) exactly when no class fits, or the least fitting class is 0 or above that slot's class. |
| ShieldTesters.ChosenClassInRange | ShieldTester.py:194-196 | A class is chosen only when the ship can carry a generator. It lies in [min, max]. It is the requested class exactly when that class is in range, and max otherwise. |
| ShieldTesters.ShieldTester.SetLoadoutsForClass | ShieldTester.py:183-198 | Without a test case the call raises. With a chosen class of 0 nothing changes. Otherwise the loadout list becomes the loadouts of that class and the prismatics flag is stored. An error of creation leaves both fields unchanged. |
| ShieldTesters.ShieldTester.CreateLoadouts | ShieldTester.py:143-161 | The loadouts are those of the requested class (class 0 meaning the ship's highest internal class), or the error of the lookup or of the curve. |
| ShieldTesters.LoadoutsOfClassMeaning | ShieldTester.py:149-160 | The lookup fails exactly when a needed table lacks the class. Otherwise the loadouts are built from the bi-weave, then normal, then (when asked) prismatic generators of the class, in that order. |
| ShieldTesters.LoadoutsOrErrorMeaning | ShieldTester.py:158-160 | The result has one loadout per generator at the same position: the ship, no boosters, and the strength the curve gives. An exception is raised exactly when some generator's curve raises on the ship, and it is that of the first such generator: a division by zero or a math domain error of `math.log` or `math.pow`. |
| ShieldTesters.NewLoadouts | ShieldTester.py:159-160 | The loop over the generators computes `LoadoutsOrError`. |
| ShieldTesters.LoadoutsFor | ShieldTester.py:159-160 | There is one unboosted loadout per generator, in order. |
| ShieldTesters.FindShip | ShieldTester.py:461-464 | The search returns the position of the first loaded ship whose symbol matches the event's, ignoring case. No earlier ship matches. It returns \|ships\| when none matches. |
| ShieldTesters.ShieldTester.ImportLoadout | ShieldTester.py:453-508 | The import raises, imports nothing (returning ""), or stores the refitted ship under its custom name and returns that name. Nothing else changes. |
| ShieldTesters.ImportOutcomes | ShieldTester.py:459-499 | The import fails exactly when a matching ship exists and some module either names a slot that does not end in a digit or takes a utility slot that is not free (counted with multiplicity). Without a matching ship it imports nothing. |
| ShieldTesters.ImportedShipNamed | ShieldTester.py:459-508 | An imported ship is a copy of the first matching ship: same name, symbol, hull mass and strength. Its custom name is "name (ident)", with the event's values or the ship's name and "Imported". Its template modules are the event's without boosters and generators. It has a non-zero compatible class pair. |
| ShieldTesters.ImportedShipFitted | ShieldTester.py:481-503 | The imported ship's free utility slots are ascending and are the loaded ship's less those the event occupies. Its layout loses exactly the internal slots the event fills. Its highest internal class is the digit of the last generator's slot, or 0 without a generator. |
| LoadoutImport.Lower | ShieldTester.py:484-490 | `str.lower` keeps the length and lowercases each character. |
| LoadoutImport.LastDigit | ShieldTester.py:489-492 | `int(s[-1:])` succeeds exactly when the last character is a digit, and gives that digit's value. |
| LoadoutImport.KeptExactly | ShieldTester.py:483-501 | A module stays in the template exactly when it is neither a booster nor a shield generator. Together the kept and removed modules account for every module. |
| LoadoutImport.FitModules | ShieldTester.py:481-499 | The loop over the modules computes `Fit`. |
| LoadoutImport.StepOk | ShieldTester.py:484-499 | One pass fails exactly when it reads a slot digit that is not there, or removes a utility slot that is not free. |
| LoadoutImport.FitSucceeds | ShieldTester.py:483-499 | The loop succeeds exactly when every slot digit it reads is present and every utility slot it takes is free, counted with multiplicity. |
| LoadoutImport.FitFree | ShieldTester.py:489 | On success the free utility slots lose exactly the slots taken, as a multiset. |
| LoadoutImport.FitRemoves | ShieldTester.py:486-493 | On success the modules to remove are the boosters and generators, in order. |
| LoadoutImport.FitHighest | ShieldTester.py:481-492 | On success the highest internal class is the slot digit of the last shield generator, or unchanged without one. |
| LoadoutImport.FitLayout | ShieldTester.py:494-498 | On success the layout keeps exactly the entries whose slot number no module occupies. |
| LoadoutImport.DropNext | ShieldTester.py:500-501 | Removing the next listed module by value takes out exactly that module, because equal modules are either all removed or all kept. |
| LoadoutImport.DropAll | ShieldTester.py:500-501 | After every listed module is removed by value, exactly the kept modules remain. |
| LoadoutImport.RemoveModules | ShieldTester.py:500-501 | The removal loop leaves the kept modules, in order. |
| TestCases.TestCase.constructor | TestCase.py:14-27 | A new test case has zero damage, no booster variants, no loadout list, zero boosters to test and prismatics on. |
| TestCases.Boosters | TestCase.py:80 | The boosters of a combination are `[variants[x] for x in combination]`. |
| TestCases.AssessAgreesWithLoadOut | TestCase.py:82-96 | The evaluator's inline formulas give the resistances and hitpoints that `get_total_values` gives for the loadout with those boosters. |
| TestCases.Row | TestCase.py:84-98 | The inner loop assesses every loadout of the list with the same booster bonuses. |
| TestCases.CandidatesAppend | TestCase.py:79-84 | The candidates of two lists of combinations are the first list's followed by the second's. |
| TestCases.CandidatesLength | TestCase.py:79-84 | There is one candidate per combination and loadout. |
| TestCases.CandidateOrigin | TestCase.py:79-98 | Every candidate is a loadout of the list fitted with the boosters of one combination. |
| TestCases.ScanAppend | TestCase.py:79-113 | Scanning two lists one after the other is scanning their concatenation. |
| TestCases.ScanFails | TestCase.py:98 | The loop raises the division by zero exactly when some candidate has a net dps of 0. |
| TestCases.ConsiderLoadouts | TestCase.py:84-113 | The inner loop computes the scan of the row of candidates from the running best. |
| TestCases.EvaluateCombinations | TestCase.py:57-118 | `test_case` computes `Evaluation` of the test case's profile, variants and loadouts. |
| TestCases.RowFails | TestCase.py:98 | A net dps of 0 at any loadout makes the inner loop raise, whatever else the row holds. |
| TestCases.EvaluationStops | TestCase.py:79-98 | Once the loop has raised within the first i+1 combinations, the remaining combinations do not change the outcome. |
| TestCases.EvaluationFails | TestCase.py:98 | A net dps of 0 at any combination and loadout makes the whole evaluation raise. |
| TestCases.Pick | TestCase.py:100-113 | Of two candidates, the later one is kept only when it ranks strictly higher. |
| TestCases.PickAssociative | TestCase.py:100-113 | Picking is associative, so the best of a list can be built up in any grouping. |
| TestCases.OutranksNegativelyTransitive | TestCase.py:100-113 | The ranking is a strict weak order. |
| TestCases.SurvivorOutranksAnyFinite | TestCase.py:100-107 | A ship that never dies ranks above any ship that dies, and not below it. |
| TestCases.LeftMax | TestCase.py:79-113 | The best of a non-empty list is one of its candidates. |
| TestCases.LeftMaxIsEarliestBest | TestCase.py:79-113 | No candidate ranks above the best, and the best ranks strictly above every candidate before it. Ties go to the earliest candidate. |
| TestCases.LeftMaxAppend | TestCase.py:79-113 | The best of a concatenation is the better of the two bests, with ties going to the first list. |
| TestCases.WellPosedAppend | TestCase.py:98 | A concatenation is well posed exactly when both halves are. |
| TestCases.SurvivalTimeSign | TestCase.py:98-100 | With positive total hitpoints, the survival time has the sign of the net dps. |
| TestCases.ConsiderInitial | TestCase.py:64-113 | The first candidate is always taken, since the best starts at 0 seconds and the 10000 sentinel. |
| TestCases.ConsiderHeld | TestCase.py:100-113 | With exact closeness, one step holds the better of the held candidate and the new one. |
| TestCases.ScanLeftMax | TestCase.py:79-113 | With exact closeness, the loop ends holding the earliest highest-ranked candidate. |
| TestCases.SurvivorStays | TestCase.py:100-113 | Once a ship that never dies is held, the held survival time and net dps stay negative, whatever closeness means. |
| TestCases.EvaluationPicksBest | TestCase.py:57-118 | On well-posed input the evaluation succeeds with the earliest highest-ranked candidate. Its incoming dps is the 10000 sentinel exactly when no ship survives, and its survival time is negative exactly when one does. |
| TestCases.EvaluationOrigin | TestCase.py:116-118 | A successful evaluation returns a loadout of the list fitted with the boosters of one combination, with as many boosters as the combination has indices. |
| TestCases.ScanOrigin | TestCase.py:103-110 | The held loadout and boosters come from one of the scanned candidates. |
| ShieldBoosterVariants.CreateFromJson | ShieldBoosterVariant.py:33-48 | Each stored resistance multiplier plus the node's bonus is 1. |
| ShieldBoosterVariants.CreateFromJsonRoundTrip | ShieldBoosterVariant.py:39-48 | Loading loses nothing: the node can be recovered from the booster, and the booster from the node. |
| ShieldBoosterVariants.GetLoadoutTemplateSlot | ShieldBoosterVariant.py:20-30 | The result is an empty dict without a template. Otherwise it is the template's keys plus "Slot" = "tinyhardpoint" + slot, with every other key unchanged. |
| ShieldBoosterVariants.Remap | ShieldBoosterVariant.py:76-81 | A product of at least 0.7 is unchanged. A product below 0.7 keeps half its distance to 0.7 and lands strictly between itself and 0.7. |
| ShieldBoosterVariants.RemapStrictlyIncreasing | ShieldBoosterVariant.py:76-81 | The remap is strictly increasing. |
| ShieldBoosterVariants.Selected | ShieldBoosterVariant.py:64-67 | A non-empty index list picks `shield_boosters[x]` for each index, with Python's negative indices. An empty or missing list picks the whole list. |
| ShieldBoosterVariants.CalculateBoosterBonuses | ShieldBoosterVariant.py:51-83 | The loop and the remap compute the stacked bonuses of the selected boosters. |
| ShieldBoosterVariants.NoBoosters | ShieldBoosterVariant.py:59-81 | No boosters give (1, 1, 1, 1). |
| ShieldBoosterVariants.ProductAppend | ShieldBoosterVariant.py:69-72 | For any per-booster factor, the running product over a concatenation is the product of the two parts' products. |
| ShieldBoosterVariants.ProductPermutation | ShieldBoosterVariant.py:69-72 | For any per-booster factor, two lists with the same multiset of boosters give the same running product. |
| ShieldBoosterVariants.BonusesPermutation | ShieldBoosterVariant.py:69-81 | Any rearrangement of the boosters gives the same bonuses. |
| ShieldBoosterVariants.PickedPermutation | ShieldBoosterVariant.py:64-65 | Two index lists holding the same indices, as often and in any order, pick the same boosters up to order. |
| ShieldBoosterVariants.IndexOrderIrrelevant | ShieldBoosterVariant.py:64-81 | In index mode the bonuses depend only on which indices are listed and how often, not on their order, so one sorted combination stands for all its orderings. |
| ShieldGenerators.CreateFromJson | ShieldGenerator.py:35-68 | A loaded generator keeps the default engineering and experimental labels. |
| ShieldGenerators.CreateFromJsonRoundTrip | ShieldGenerator.py:50-68 | Every value of the node survives loading. |
| ShieldGenerators.Set | ShieldGenerator.py:93 | `setattr` gives the attribute its new value and leaves names, class and masses alone. |
| ShieldGenerators.SetFrame | ShieldGenerator.py:93 | Setting one attribute leaves every other attribute unchanged. |
| ShieldGenerators.CalculateAndSetEngineering | ShieldGenerator.py:70-93 | An absent key changes nothing. Otherwise the attribute gets round4 of its rule (RES, MASS or NORMAL), with a percentage divided by 100 first. Identity fields are kept. |
| ShieldGenerators.CalculateAndSetFrame | ShieldGenerator.py:80-93 | Only the named attribute changes. |
| ShieldGenerators.ApplyEngineeringByAttr | ShieldGenerator.py:95-108 | Each attribute is updated once, from its own old value, by the rule of the table. minmul, optmul and maxmul all scale by the "optmul" feature. Only the resistances honour the percentage flag. Names, class and masses are kept. |
| ShieldGenerators.PercentageOnlyResistances | ShieldGenerator.py:95-108 | Only the three resistances depend on the percentage flag. |
| ShieldGenerators.NoFeatures | ShieldGenerator.py:80-108 | An empty feature map changes nothing. |
| ShieldGenerators.CreateEngineeredShieldGenerators | ShieldGenerator.py:111-133 | The nested loop computes `Variations`. |
| ShieldGenerators.AppendExperimentals | ShieldGenerator.py:121-131 | The inner loop appends one copy of the engineered generator per experimental effect, in the effects' order, each with that effect applied as percentages. |
| ShieldGenerators.VariationsLength | ShieldGenerator.py:119-133 | There are \|blueprints\| * \|experimentals\| variants. |
| ShieldGenerators.VariationAt | ShieldGenerator.py:121-131 | Variant i * \|experimentals\| + j is blueprint i with experimental effect j (blueprint-major order). |
| ShieldGenerators.VariantLabels | ShieldGenerator.py:122-129 | Each variant carries its blueprint's and its experimental effect's symbol and name, and the prototype's symbol, name, class and masses. |
| ShieldGenerators.VariantValues | ShieldGenerator.py:125-130 | The blueprint's features act as fractions on the prototype. The experimental features then act on the result as percentages. |
| ShieldGenerators.CreateModifierTemplates | ShieldGenerator.py:135-162 | The nine comparisons compute `ModifierTemplates`. |
| ShieldGenerators.AppendIfChanged | ShieldGenerator.py:144-161 | Comparison k extends the modifiers of the first k attributes to those of the first k + 1: one modifier is appended exactly when the k-th attribute differs from the default. |
| ShieldGenerators.EntryLiterals | ShieldGenerator.py:144-161 | Each of the nine fields gives a modifier exactly when it differs from the default. The modifier has the field's label, its scaling (x100 for strength and resistances) and LessIsGood = 1 only for PowerDraw and EnergyPerRegen. |
| ShieldGenerators.ModifierTemplatesUnfold | ShieldGenerator.py:144-162 | The entries come in the fixed order integrity, power, optmul, distdraw, brokenregen, regen, kinetic, thermal, explosive. |
| ShieldGenerators.ModifiersEmpty | ShieldGenerator.py:144-162 | There are no modifiers exactly when the generator matches the default on every exported attribute. |
| ShieldGenerators.ModifierTemplatesIdentical | ShieldGenerator.py:144-162 | A generator compared with itself gives no modifiers. |
| ShieldGenerators.ModifiersJson | ShieldGenerator.py:138-142 | Each modifier becomes one dict, in order. |
| ShieldGenerators.CreateLoadout | ShieldGenerator.py:164-183 | The entry has exactly the keys Item, Slot, On, Priority and Engineering. Slot is "slot" + two-digit slot + "_size" + class. On is true and Priority is 0. Engineering holds BlueprintName = the generator's engineering symbol, Level 5, Quality 1, the modifiers, and ExperimentalEffect = its experimental symbol. |
| ShieldGenerators.SlotNameReadable | ShieldGenerator.py:179 | For natural numbers, the slot name reads back as its slot and its class. |
| LoadOuts.ShieldStrength | LoadOut.py:17-36 | The strength is 0 without a ship. With a ship it is round4 of the base strength times the curve's multiplier. |
| LoadOuts.NewLoadOut | LoadOut.py:11-15 | A new loadout has the generator, the ship, no boosters and the curve's strength. |
| LoadOuts.XNormBounds | LoadOut.py:30 | The normalised mass never exceeds 1, and it is at most 0 for a hull at or above the maximum mass. |
| LoadOuts.CurveDefinedWhenOrdered | LoadOut.py:30-32 | A generator whose optimal mass and multiplier lie strictly inside their ranges, on a hull lighter than its maximum mass, raises nothing, unless the logarithm of the mass ratio is 0. |
| LoadOuts.HeavyHullRaises | LoadOut.py:30-32 | A hull heavier than the generator's maximum mass gives `math.pow` a negative base, which raises a ValueError unless the exponent is integral. |
| LoadOuts.MultiplierBetween | LoadOut.py:32-33 | When the curve value lies in [0, 1], the multiplier lies between minmul and maxmul. |
| LoadOuts.CalculateTotalValues | LoadOut.py:47-60 | The totals are ((1-explres)*e, (1-kinres)*k, (1-thermres)*t, strength*h). |
| LoadOuts.TotalValuesOfBoosters | LoadOut.py:38-45 | Both branches of `get_total_values` are the totals of the fitted boosters' bonuses, with a missing or empty list counting as no boosters. |
| LoadOuts.TotalValuesWithoutBoosters | LoadOut.py:45 | Without boosters, the totals are the generator's own multipliers and the bare strength. |
| LoadOuts.TotalValuesPermutation | LoadOut.py:43-44 | The order of the boosters does not change the totals. |
| LoadOuts.BoosterEntries | LoadOut.py:78-79 | Booster i goes into the i-th free utility slot. |
| LoadOuts.AppendBoosterEntries | LoadOut.py:78-79 | The loop appends the booster entries after the modules already there. |
| LoadOuts.GenerateLoadoutEvent | LoadOut.py:62-80 | The method computes `LoadoutEvent`. |
| LoadOuts.LoadoutEventErrors | LoadOut.py:68-76 | The event is an empty dict without a ship. Otherwise it fails exactly when the template has no module list, the boosters are unset, or there are more boosters than utility slots, checked in that order. |
| LoadOuts.LoadoutEventModules | LoadOut.py:71-79 | A successful event keeps every key of the template. Its modules are the template's, then the generator entry, then booster k in free utility slot k. |
| LoadOuts.GeneratorEntrySlot | LoadOut.py:73 | The generator is placed in the highest-numbered internal slot whose class reaches min(module class, highest internal), or in (0, 0) when there is none. The entry's slot name encodes that slot and class. |
| StarShips.CreateFromJson | StarShip.py:30-52 | The fields are copied from the node. The free utility slots are [1..utility_slots]. The layout is built by `setdefault` from the integer entries of the slot list. |
| StarShips.Range | StarShip.py:43 | `list(range(lo, hi))` has hi - lo elements, lo + i at position i. |
| StarShips.SlotLayoutEntries | StarShip.py:45-50 | The layout holds exactly the integer entries, keyed by 1-based position, with ascending keys. Military slots leave gaps. |
| StarShips.FirstFit | StarShip.py:25-28 | The scan stops at the first item whose class reaches the threshold, with no earlier item reaching it. |
| StarShips.AvailableInternalSlot | StarShip.py:23-28 | A found slot is an entry of the layout whose class reaches min(module class, highest internal). Every slot scanned before it (lower numbers, or higher ones in reverse) takes less. (0, 0) means no slot reaches the threshold. |
| StarShips.ScanOrderSorted | StarShip.py:24 | The scan visits the layout's entries by ascending slot number, or by descending slot number in reverse. |
| Utility.RJust | Utility.py:26 | `rjust` pads on the left with spaces to the width and never truncates. |
| Utility.MaxLabelIsMaximum | Utility.py:14-21 | W is the longest caption among the tuples, or 0 when there is none. |
| Utility.RenderAll | Utility.py:24-28 | There is one rendered line per element, in order. |
| Utility.FormatOutputString | Utility.py:6-29 | The two loops compute the rendered lines joined by newlines. |
| Utility.FormatEmpty | Utility.py:29 | An empty list gives "". |
| Utility.RenderedLine | Utility.py:24-28 | A string is emitted unchanged. A tuple becomes its caption right-justified to W followed by its value: exactly W + \|value\| characters. |
| Utility.SplitJoin | Utility.py:29 | Splitting the output at newlines gives back the rendered lines, when no line holds a newline of its own. |
| Combinatorics.CombinationsCount | ShieldTester.py:247 | `combinations_with_replacement(range(n), k)` yields C(n+k-1, k) tuples for n >= 1. |
| Combinatorics.CombinationsExactly | ShieldTester.py:247 | The tuples enumerated are exactly the non-decreasing k-tuples over [0, n). |
| Combinatorics.CombinationsLex | ShieldTester.py:247 | The tuples come in strictly increasing lexicographic order, as `combinations_with_replacement` emits them. |
| Combinatorics.BinomFactorial | ShieldTester.py:87-88 | C(a, b) * b! * (a-b)! = a!. |
| Combinatorics.FactorialQuotient | ShieldTester.py:87-88 | a! / (a-b)! / b! is exactly C(a, b). |
| Combinatorics.ChunksFlatten | ShieldTester.py:328-330 | The chunks together are the list. |
| Combinatorics.ChunksSizes | ShieldTester.py:328-330 | Every chunk is non-empty and at most n long, and all but the last are exactly n long. |
| Combinatorics.ChunksCount | ShieldTester.py:328-330 | There are ceil(\|l\| / n) chunks, and none for an empty list. |
| Combinatorics.GridAt | ShieldGenerator.py:121-131 | Element i * \|ys\| + j of a nested loop's output comes from xs[i] and ys[j]. |
| Collections.SortItemsSorted | StarShip.py:24 | `sorted(d.items())` orders by ascending key and permutes. |
| Collections.SortBySorted | ShieldTester.py:291-294 | The sort by key orders in the requested direction, permutes, and keeps the pairs of each key in their original order (stable). |
| Collections.SortByStable | ShieldTester.py:291-294 | For every key, the pairs with that key appear in the sorted list in the same order as in the input. |
| Collections.KeyFilterPrefix | ShieldTester.py:292-295 | The pairs of one key in a prefix of a list are a prefix of that key's pairs in the whole list. |
| Collections.SortIntsAscending | ShieldTester.py:172 | `list.sort()` on integers orders ascending and permutes. |
| Collections.RemoveFirst | ShieldTester.py:489 | `list.remove(x)` of a present x removes one copy of x. |
| Collections.FirstIndex | ShieldTester.py:489 | The index found holds x, and x does not occur before it. |
| Collections.RemoveFirstIsFirst | ShieldTester.py:489 | `list.remove(x)` removes the first occurrence of x: the result is the list without that position. |
| Collections.SetDefault | StarShip.py:50 | `setdefault` appends a new key at the end and leaves a present key unchanged. |
| Json.ParseNatToString | ShieldGenerator.py:179 | The decimal digits of a natural number read back as that number. |
| Json.Pad2 | ShieldGenerator.py:179 | `f"{n:02d}"` pads one digit with a leading 0 and leaves longer numbers unchanged. |

## Left out

- File and JSON input (`load_data`), logging (`write_log`), `slugify`, export links, `select_ship`, `get_default_shield_generator_of_variant`, `ship_names`, `get_output_string` and console or message-queue text. These are I/O and presentation. The loaded ships, boosters and generator tables are fields of the engine, filled by the caller.
- The multiprocessing branch of `compute` (the pool, `apply_async`, psutil priorities and `pool.terminate` in `cancel`). This is concurrency. Only the sequential branch is modelled, and the flag is read through an oracle.
- Floating point. Numbers are reals. `math.isclose` is a parameter, with its real-number meaning in `IsClose`. round(x, 4), the logarithm and the power of the strength curve are uninterpreted functions. No bit-exact float result is claimed. The `OverflowError` of a float power out of range is not modelled.
- NumberOfTests: the float quotient of factorials is modelled as its exact real value, truncated. Rounding of very large factorials is not modelled.
- `str.lower` is modelled on ASCII letters only, and `int()` of a character accepts only the ASCII digits 0-9.
- `TestCase.ship` is never None here, and `os.cpu_count()` is an integer. `None` for either is not modelled.
- ShieldTesters.CompatibleClassesMeaning, ShieldTesters.ShieldTester.SetLoadoutsForClass and ShieldTesters.ShieldTester.ImportLoadout require the generator tables to hold a "normal" table whose every class has a generator, as the shipped data gives (`GeneratorsLoaded`). `load_data` stores whatever `create_engineered_shield_generators` returns, which is empty for an empty blueprint or experimental list. The `KeyError` or `IndexError` of a table without that shape, in `get_compatible_shield_generator_classes`, is not modelled.
- ShieldTesters.ShieldTester.ImportLoadout: the event is required to have a "Ship" string and a "Modules" list of modules with "Slot" and "Item" strings (`WellFormedEvent`). The `KeyError` of an event without them is not modelled.
- ShieldTesters.ShieldTester.ImportLoadout: ships are kept as a sequence in load order, not as a dict by name. The import requires their names to be distinct (`DistinctNames`); keeping only the first ship of a name, as `setdefault` does when the data is loaded, is the caller's duty.
- ShieldTesters.ShieldTester.Compute: the cancel flag's value after `compute` belongs to the cancelling thread. The method only performs the reset at its start; a `cancel()` seen during the run reaches it through `observe`, and is not written back to the flag.
- ShieldBoosterVariants.Selected and ShieldBoosterVariants.CalculateBoosterBonuses: the `IndexError` of an index outside the booster list is not modelled; the indices are required to be in range (`ValidIndices`). Every caller passes combinations of in-range indices.
- ShieldTesters.CallbackPick, ShieldTesters.ChunkingAgrees, ShieldTesters.SearchFinds, ShieldTesters.ComputeAgreesWithOneEvaluation, TestCases.ConsiderHeld, TestCases.ScanLeftMax and TestCases.EvaluationPicksBest: these are stated for exact closeness (`Exact(close)`). `math.isclose` is not transitive, so with tolerance the ranking is not a strict weak order. CallbackKeepsSurvivor and SurvivorStays hold for any closeness.
- ShieldTesters.ChunkingAgrees: the candidates must be well posed (no net dps of 0 and positive total hitpoints). A net dps of 0 raises in both the chunked and the unchunked run (`ScanFails`, `EvaluationFails`).

## Notes

- The pre-filter runs when prelim > 0 and prelim differs from the number of loadouts, also when prelim is larger.
- The pre-filter sorts by net dps (or survival time) alone, keeping list order on ties. It does not break ties by hitpoints.
- A net dps of exactly 0 does not count as "never dies". It raises a division by zero, both in the evaluator and in the pre-filter.
- The fold of chunk results is not commutative: ties keep the held result. The agreement theorem is proved for the sequential order of the loop.
- A strength curve that raises does so when the loadouts are created (`CurveUndefined`), not when the data is loaded.
