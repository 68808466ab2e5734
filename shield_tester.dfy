/** ShieldTester.py: the search engine. It holds the loaded ships, booster
    variants and engineered shield generators, prepares a test case, and
    finds the best loadout by evaluating the booster combinations one chunk
    at a time. */
module ShieldTesters {
  import opened Wrappers
  import opened Json
  import opened Collections
  import opened Combinatorics
  import opened StarShips
  import opened ShieldBoosterVariants
  import opened ShieldGenerators
  import opened LoadOuts
  import opened TestCases
  import opened LoadoutImport

  /** MP_CHUNK_SIZE: how many booster combinations one evaluation takes. */
  const MpChunkSize: nat := 10000

  /** The arguments of the progress callback: CALLBACK_MESSAGE (1),
      CALLBACK_STEP (2) and CALLBACK_CANCELLED (3). */
  datatype Event = CallbackMessage | CallbackStep | CallbackCancelled

  /** How `compute` ends: None because there is nothing to test or because
      the search was cancelled, an exception from the evaluator, or the best
      result. */
  datatype Outcome = NothingToTest | Cancelled | Raised(error: EvalError) | Found(result: TestResult)

  /** The exceptions of the engine's other operations: the RuntimeError for
      a missing test case, the TypeError of `len(None)`, the ValueError of a
      negative factorial, a KeyError in the generator tables, the division
      by zero or domain error of the strength curve, and the ValueErrors of importing a
      module whose utility slot is not a digit or not free. */
  datatype TesterError =
    | NoTestCase
    | LoadoutListMissing
    | NegativeBoosterCount
    | MissingKey
    | CurveUndefined(fault: CurveError)
    | Unfitted(reason: FitError)

  // ---------------------------------------------------------------------
  // The engine's state
  // ---------------------------------------------------------------------

  class ShieldTester {
    /** The loaded ships, in load order. The source keys them by name, so
        the caller keeps at most one ship per name (`DistinctNames`). */
    var ships: seq<StarShip>
    /** Imported ships by custom name. */
    var importedShips: map<string, StarShip>
    var boosterVariants: seq<ShieldBoosterVariant>
    /** The engineered shield generators by type ("normal", "bi-weave",
        "prismatic"), then by module class in load order. */
    var shieldGenerators: map<string, Items<seq<ShieldGenerator>>>
    var cpuCores: int
    /** The flag that `cancel()` raises from another thread. */
    var cancelRequested: bool
    /** `os.cpu_count()`. */
    const osCpuCount: int
    /** The logarithm, power and rounding of the strength curve. */
    const curve: CurveMath

    /** A fresh engine: nothing loaded, every core in use. */
    constructor (osCpuCount: int, curve: CurveMath)
      ensures ships == [] && importedShips == map[] && boosterVariants == [] && shieldGenerators == map[]
      ensures this.osCpuCount == osCpuCount && this.curve == curve
      ensures cpuCores == osCpuCount && !cancelRequested
    {
      this.osCpuCount := osCpuCount;
      this.curve := curve;
      ships := [];
      importedShips := map[];
      boosterVariants := [];
      shieldGenerators := map[];
      cpuCores := osCpuCount;
      cancelRequested := false;
    }

    /** The `cpu_cores` setter. */
    method SetCpuCores(value: int)
      modifies this`cpuCores
      ensures cpuCores == ClampCores(osCpuCount, value)
    {
      cpuCores := ClampCores(osCpuCount, value);
    }

    /** `cancel()`, without the process pool. */
    method Cancel()
      modifies this`cancelRequested
      ensures cancelRequested
    {
      cancelRequested := true;
    }

    /** `compute`, sequential branch: reset the flag, give up when there is
        nothing to test, clamp the booster count, enumerate the
        combinations, optionally pre-filter the loadouts, then evaluate the
        combinations chunk by chunk, checking the flag before every chunk
        and once more at the end. `hasQueue` and `hasCallback` say whether a
        message queue and a callback are given; `observe(i)` says whether
        `cancel()` has been called by the i-th check. */
    method Compute(tc: TestCase?, prelim: int, hasQueue: bool, hasCallback: bool,
                   close: (real, real) -> bool, observe: nat -> bool)
      returns (r: Outcome, events: seq<Event>)
      modifies this`cancelRequested, (if tc == null then {} else {tc})`loadoutList
      ensures tc == null ==> r == NothingToTest && events == []
      ensures tc != null ==>
        var c := ComputeSpec(close, observe, hasQueue, hasCallback, tc.Profile(), tc.ship, tc.numberOfBoostersToTest,
                             tc.shieldBoosterVariants, old(tc.loadoutList), prelim);
        r == c.outcome && events == c.events && tc.loadoutList == c.loadoutList
    {
      cancelRequested := false;
      if tc == null || tc.shieldBoosterVariants.None? || tc.shieldBoosterVariants.value == []
         || tc.loadoutList.None? || tc.loadoutList.value == [] {
        return NothingToTest, [];
      }
      var variants := tc.shieldBoosterVariants.value;
      var boosterAmount := ClampBoosters(tc.numberOfBoostersToTest, tc.ship.UtilitySlots());
      var boosterCombinations := Combinations(|variants|, boosterAmount);

      if prelim > 0 && prelim != |tc.loadoutList.value| {
        var filtered := Prefilter(tc.Profile(), tc.loadoutList.value, prelim);
        if filtered.Err? {
          return Raised(filtered.error), [];
        }
        tc.loadoutList := Some(filtered.value);
      }
      var loadouts := tc.loadoutList.value;
      events := if hasQueue && hasCallback then [CallbackMessage] else [];

      var chunks := Chunks(boosterCombinations, MpChunkSize);
      CombinationChunksValid(variants, boosterAmount);
      var r0 := RunChunks(tc, chunks, close, observe);
      if hasCallback {
        events := events + r0.1;
      } else {
        assert events + [] == events;
      }
      r := r0.0;
      if r.Found? && hasQueue && hasCallback {
        events := events + [CallbackMessage];
      }
    }

    /** The loop over the chunks: one evaluation and one callback per
        chunk, with the cancel check before each. */
    method RunChunks(tc: TestCase, chunks: seq<seq<seq<nat>>>, close: (real, real) -> bool, observe: nat -> bool)
      returns (r: (Outcome, seq<Event>))
      requires tc.shieldBoosterVariants.Some? && tc.loadoutList.Some?
      requires AllValid(tc.shieldBoosterVariants.value, chunks)
      ensures r == Run(close, observe, tc.Profile(), tc.shieldBoosterVariants.value, tc.loadoutList.value, chunks, 0, Start)
    {
      var p := tc.Profile();
      var variants := tc.shieldBoosterVariants.value;
      var loadouts := tc.loadoutList.value;
      var bestResult := Start;
      var events: seq<Event> := [];
      var i := 0;
      assert events + Run(close, observe, p, variants, loadouts, chunks, 0, Start).1
          == Run(close, observe, p, variants, loadouts, chunks, 0, Start).1;
      while i < |chunks|
        invariant 0 <= i <= |chunks|
        invariant Run(close, observe, p, variants, loadouts, chunks, 0, Start)
               == (Run(close, observe, p, variants, loadouts, chunks, i, bestResult).0,
                   events + Run(close, observe, p, variants, loadouts, chunks, i, bestResult).1)
      {
        RunHalts(close, observe, p, variants, loadouts, chunks, i, bestResult);
        if observe(i) {
          return (Cancelled, events + [CallbackCancelled]);
        }
        var result := EvaluateCombinations(tc, chunks[i], close);
        if result.Err? {
          assert events + [] == events;
          return (Raised(result.error), events);
        }
        RunStep(close, observe, p, variants, loadouts, chunks, i, bestResult);
        ghost var rest := Run(close, observe, p, variants, loadouts, chunks, i + 1,
                              Callback(close, bestResult, result.value));
        assert (events + [CallbackStep]) + rest.1 == events + ([CallbackStep] + rest.1);
        bestResult := Callback(close, bestResult, result.value);
        events := events + [CallbackStep];
        i := i + 1;
      }
      RunHalts(close, observe, p, variants, loadouts, chunks, i, bestResult);
      if observe(|chunks|) {
        return (Cancelled, events + [CallbackCancelled]);
      }
      assert events + [] == events;
      r := (Found(bestResult), events);
    }

    /** `set_boosters_to_test`: the test case gets the loaded variants, or
        on the short list only those that cannot be skipped. */
    method SetBoostersToTest(tc: TestCase?, shortList: bool) returns (r: Result<(), TesterError>)
      modifies (if tc == null then {} else {tc})`shieldBoosterVariants
      ensures tc == null ==> r == Err(NoTestCase)
      ensures tc != null ==> r == Ok(()) && tc.shieldBoosterVariants == Some(ShortList(boosterVariants, shortList))
    {
      if tc == null {
        return Err(NoTestCase);
      }
      tc.shieldBoosterVariants := Some(ShortList(boosterVariants, shortList));
      r := Ok(());
    }

    /** `__create_loadouts`: one unboosted loadout per generator of the
        class (class 0 meaning the ship's highest internal class). */
    method CreateLoadouts(ship: StarShip, moduleClass: int, prismatics: bool) returns (r: Result<seq<LoadOut>, TesterError>)
      ensures r == LoadoutsOfClass(shieldGenerators, ship, moduleClass, prismatics, curve)
    {
      var cls := if moduleClass == 0 then ship.highestInternal else moduleClass;
      var gens := GeneratorsOfClass(shieldGenerators, cls, prismatics);
      if gens.Err? {
        return Err(gens.error);
      }
      r := NewLoadouts(gens.value, ship, curve);
    }

    /** `set_loadouts_for_class`: the requested class when the ship can fit
        it, its largest compatible class otherwise; nothing is set when
        that is 0. */
    method SetLoadoutsForClass(tc: TestCase?, moduleClass: int, prismatics: bool) returns (r: Result<(), TesterError>)
      requires GeneratorsLoaded(shieldGenerators)
      modifies (if tc == null then {} else {tc})`loadoutList, (if tc == null then {} else {tc})`usePrismatics
      ensures tc == null ==> r == Err(NoTestCase)
      ensures tc != null ==>
        var c := ChosenClass(moduleClass, CompatibleClasses(shieldGenerators, tc.ship));
        if c <= 0 then
          r == Ok(()) && tc.loadoutList == old(tc.loadoutList) && tc.usePrismatics == old(tc.usePrismatics)
        else
          match LoadoutsOfClass(shieldGenerators, tc.ship, c, prismatics, curve)
          case Err(e) => r == Err(e) && tc.loadoutList == old(tc.loadoutList) && tc.usePrismatics == old(tc.usePrismatics)
          case Ok(ls) => r == Ok(()) && tc.loadoutList == Some(ls) && tc.usePrismatics == prismatics
    {
      if tc == null {
        return Err(NoTestCase);
      }
      var c := ChosenClass(moduleClass, CompatibleClasses(shieldGenerators, tc.ship));
      if c > 0 {
        var ls := CreateLoadouts(tc.ship, c, prismatics);
        if ls.Err? {
          return Err(ls.error);
        }
        tc.loadoutList := Some(ls.value);
        tc.usePrismatics := prismatics;
      }
      r := Ok(());
    }

    /** `import_loadout`: copy the first loaded ship whose symbol matches
        the event's (ignoring case), rename it, refit it from the event's
        modules, and keep it under its custom name when it can carry a
        shield generator. The empty name means nothing was imported. */
    method ImportLoadout(event: map<string, Json>) returns (r: Result<string, TesterError>)
      requires WellFormedEvent(event) && GeneratorsLoaded(shieldGenerators) && DistinctNames(ships)
      modifies this`importedShips
      ensures match ImportSpec(ships, shieldGenerators, event)
        case Err(e) => r == Err(e) && importedShips == old(importedShips)
        case Ok(None) => r == Ok("") && importedShips == old(importedShips)
        case Ok(Some(s)) => r == Ok(s.customName) && importedShips == old(importedShips)[s.customName := s]
    {
      var symbol := Lower(event["Ship"].s);
      var k := 0;
      while k < |ships| && Lower(ships[k].symbol) != symbol
        invariant 0 <= k <= |ships|
        invariant forall j :: 0 <= j < k ==> Lower(ships[j].symbol) != symbol
      {
        k := k + 1;
      }
      assert k == FindShip(ships, event["Ship"].s);
      if k == |ships| {
        return Ok("");
      }
      var ship := Renamed(ships[k], event);
      var mods := event["Modules"].items;
      var f0 := Fitting(ship.utilitySlotsFree, ship.highestInternal, ship.internalSlotLayout, []);
      var fitted := FitModules(f0, mods);
      if fitted.Err? {
        return Err(Unfitted(fitted.error));
      }
      FitRemoves(f0, mods);
      var kept := RemoveModules(mods, fitted.value.remove);
      ship := Refitted(ship, fitted.value, kept);
      var c := CompatibleClasses(shieldGenerators, ship);
      if c.0 == 0 || c.1 == 0 {
        return Ok("");
      }
      importedShips := importedShips[ship.customName := ship];
      r := Ok(ship.customName);
    }
  }

  /** `max(1, min(os.cpu_count(), abs(value)))`. */
  function ClampCores(osCount: int, value: int): (c: int)
    ensures c >= 1
    ensures osCount >= 1 ==> c <= osCount
    ensures 1 <= Abs(value) <= osCount ==> c == Abs(value)
    ensures Abs(value) > osCount ==> c == if osCount >= 1 then osCount else 1
  {
    var v := Abs(value);
    var m := if osCount <= v then osCount else v;
    if m >= 1 then m else 1
  }

  function Abs(x: int): nat
  {
    if x < 0 then -x else x
  }

  // ---------------------------------------------------------------------
  // calculate_number_of_tests
  // ---------------------------------------------------------------------

  function MinInt(a: int, b: int): int
  {
    if a <= b then a else b
  }

  /** `calculate_number_of_tests`: the factorial quotient for the number
      of booster combinations times the number of loadouts, or the prelim
      count when it is smaller. A missing test case or booster list gives
      0. */
  function NumberOfTests(tc: TestCase?, prelim: int): (r: Result<int, TesterError>)
    reads tc
    ensures tc == null || tc.shieldBoosterVariants.None? || tc.shieldBoosterVariants.value == [] ==> r == Ok(0)
    ensures tc != null && tc.shieldBoosterVariants.Some? && tc.shieldBoosterVariants.value != [] ==>
      (r.Err? <==> tc.loadoutList.None? || tc.numberOfBoostersToTest < 0)
    ensures r.Ok? && tc != null && tc.shieldBoosterVariants.Some? && tc.shieldBoosterVariants.value != [] ==>
      var n := |tc.shieldBoosterVariants.value|;
      var k := tc.numberOfBoostersToTest;
      var l := |tc.loadoutList.value|;
      var m := MinInt(l, if prelim < 1 then l else prelim);
      r.value == Binom(n + k - 1, k) * m && r.value == |Combinations(n, k)| * m
  {
    if tc == null || tc.shieldBoosterVariants.None? || tc.shieldBoosterVariants.value == [] then Ok(0)
    else if prelim < 1 && tc.loadoutList.None? then Err(LoadoutListMissing)
    else if tc.numberOfBoostersToTest < 0 then Err(NegativeBoosterCount)
    else if tc.loadoutList.None? then Err(LoadoutListMissing)
    else
      var n := |tc.shieldBoosterVariants.value|;
      var k := tc.numberOfBoostersToTest;
      var l := |tc.loadoutList.value|;
      var m := MinInt(l, if prelim < 1 then l else prelim);
      Ok(CountTests(n, k, m))
  }

  /** `int(factorial(n + k - 1) / factorial(n - 1) / factorial(k) * m)`:
      the number of k-multisets of n variants, times m. */
  function CountTests(n: nat, k: nat, m: nat): (c: int)
    requires n >= 1
    ensures c == Binom(n + k - 1, k) * m && c == |Combinations(n, k)| * m
  {
    var q := (Fact(n + k - 1) as real) / (Fact(n - 1) as real) / (Fact(k) as real);
    FactorialQuotient(n + k - 1, k);
    CombinationsCount(n, k);
    FloorOfProduct(Binom(n + k - 1, k), q, m);
    (q * (m as real)).Floor
  }

  lemma FloorOfProduct(b: int, q: real, m: int)
    requires q == b as real
    ensures (q * (m as real)).Floor == b * m
  {
    RealOfProduct(b, m);
  }

  // ---------------------------------------------------------------------
  // apply_async_callback and math.isclose
  // ---------------------------------------------------------------------

  /** `TestResult(survival_time=0)`: the best result before any chunk. */
  const Start: TestResult := TestResult(None, 0.0, 0.0, 0.0)

  /** `apply_async_callback`: a held result whose ship never dies gives way
      only to a strictly lower incoming dps, or a close one with strictly
      more hitpoints; otherwise any result whose ship never dies, or one
      that lasts strictly longer, takes over. */
  function Callback(close: (real, real) -> bool, best: TestResult, r: TestResult): (b: TestResult)
    ensures b == best || b == r
  {
    if best.survivalTime < 0.0 then
      if best.incomingDps > r.incomingDps
         || (close(best.incomingDps, r.incomingDps) && best.totalHitpoints < r.totalHitpoints)
      then r else best
    else if r.survivalTime < 0.0 || r.survivalTime > best.survivalTime then r
    else best
  }

  /** rel_tol of `math.isclose`; abs_tol is 0. */
  const RelTol: real := 0.00000001

  function AbsReal(x: real): real
  {
    if x < 0.0 then -x else x
  }

  /** `math.isclose(a, b, rel_tol=1e-8)` over the reals. */
  predicate IsClose(a: real, b: real)
  {
    AbsReal(a - b) <= RelTol * (if AbsReal(a) <= AbsReal(b) then AbsReal(b) else AbsReal(a))
  }

  /** A negative number is close only to negative numbers. */
  lemma IsCloseKeepsSign(a: real, b: real)
    requires a < 0.0 && IsClose(a, b)
    ensures b < 0.0
  {
  }

  /** Once a result whose ship never dies is held, a result whose ship dies
      (its incoming dps is the sentinel, or any other number that is not
      negative) never replaces it. */
  lemma CallbackKeepsSurvivor(best: TestResult, r: TestResult)
    requires best.survivalTime < 0.0 && best.incomingDps < 0.0 && r.incomingDps >= 0.0
    ensures Callback(IsClose, best, r) == best
  {
    if IsClose(best.incomingDps, r.incomingDps) {
      IsCloseKeepsSign(best.incomingDps, r.incomingDps);
    }
  }

  /** The first evaluated result always replaces the start value. */
  lemma CallbackStart(close: (real, real) -> bool, y: Candidate)
    requires y.dps != 0.0 && y.total > 0.0
    ensures Callback(close, Start, ResultOf(y)) == ResultOf(y)
  {
    SurvivalTimeSign(y);
  }

  /** With exact closeness the callback keeps the better of two evaluated
      results, ties to the one held: the same rule as the evaluator's. */
  lemma CallbackPick(close: (real, real) -> bool, x: Candidate, y: Candidate)
    requires Exact(close)
    requires x.dps != 0.0 && x.total > 0.0 && y.dps != 0.0 && y.total > 0.0
    ensures Callback(close, ResultOf(x), ResultOf(y)) == ResultOf(Pick(x, y))
  {
    SurvivalTimeSign(x);
    SurvivalTimeSign(y);
    assert close(ResultOf(x).incomingDps, ResultOf(y).incomingDps)
        == (ResultOf(x).incomingDps == ResultOf(y).incomingDps);
  }

  // ---------------------------------------------------------------------
  // The chunk loop
  // ---------------------------------------------------------------------

  predicate AllValid(variants: seq<ShieldBoosterVariant>, chunks: seq<seq<seq<nat>>>)
  {
    forall i :: 0 <= i < |chunks| ==> ValidCombos(variants, chunks[i])
  }

  /** The evaluations of the chunks folded through the callback, stopping
      at the first exception. */
  function FoldChunks(close: (real, real) -> bool, p: DamageProfile, variants: seq<ShieldBoosterVariant>,
                      loadouts: seq<LoadOut>, chunks: seq<seq<seq<nat>>>, best: TestResult): Result<TestResult, EvalError>
    requires AllValid(variants, chunks)
  {
    if chunks == [] then Ok(best)
    else
      match Evaluation(close, p, variants, loadouts, chunks[0])
      case Err(e) => Err(e)
      case Ok(r) => FoldChunks(close, p, variants, loadouts, chunks[1..], Callback(close, best, r))
  }

  /** The chunk loop from chunk i on, with the cancel check i before chunk
      i and check |chunks| after the last one: the outcome and the
      callbacks it makes. */
  function Run(close: (real, real) -> bool, observe: nat -> bool, p: DamageProfile, variants: seq<ShieldBoosterVariant>,
               loadouts: seq<LoadOut>, chunks: seq<seq<seq<nat>>>, i: nat, best: TestResult): (Outcome, seq<Event>)
    requires i <= |chunks| && AllValid(variants, chunks)
    decreases |chunks| - i
  {
    if observe(i) then (Cancelled, [CallbackCancelled])
    else if i == |chunks| then (Found(best), [])
    else
      match Evaluation(close, p, variants, loadouts, chunks[i])
      case Err(e) => (Raised(e), [])
      case Ok(r) =>
        var rest := Run(close, observe, p, variants, loadouts, chunks, i + 1, Callback(close, best, r));
        (rest.0, [CallbackStep] + rest.1)
  }

  /** Where the loop stops at check i: a cancel, the end, or an exception. */
  lemma RunHalts(close: (real, real) -> bool, observe: nat -> bool, p: DamageProfile, variants: seq<ShieldBoosterVariant>,
                 loadouts: seq<LoadOut>, chunks: seq<seq<seq<nat>>>, i: nat, best: TestResult)
    requires i <= |chunks| && AllValid(variants, chunks)
    ensures observe(i) ==> Run(close, observe, p, variants, loadouts, chunks, i, best) == (Cancelled, [CallbackCancelled])
    ensures !observe(i) && i == |chunks| ==> Run(close, observe, p, variants, loadouts, chunks, i, best) == (Found(best), [])
    ensures !observe(i) && i < |chunks| && Evaluation(close, p, variants, loadouts, chunks[i]).Err? ==>
      Run(close, observe, p, variants, loadouts, chunks, i, best)
      == (Raised(Evaluation(close, p, variants, loadouts, chunks[i]).error), [])
  {
  }

  /** One chunk evaluated without a cancel: a step callback, then the rest. */
  lemma RunStep(close: (real, real) -> bool, observe: nat -> bool, p: DamageProfile, variants: seq<ShieldBoosterVariant>,
                loadouts: seq<LoadOut>, chunks: seq<seq<seq<nat>>>, i: nat, best: TestResult)
    requires i < |chunks| && AllValid(variants, chunks) && !observe(i)
    requires Evaluation(close, p, variants, loadouts, chunks[i]).Ok?
    ensures var rest := Run(close, observe, p, variants, loadouts, chunks, i + 1,
                            Callback(close, best, Evaluation(close, p, variants, loadouts, chunks[i]).value));
      Run(close, observe, p, variants, loadouts, chunks, i, best) == (rest.0, [CallbackStep] + rest.1)
  {
  }

  function Steps(n: nat): (s: seq<Event>)
    ensures |s| == n && forall i :: 0 <= i < n ==> s[i] == CallbackStep
  {
    seq(n, i => CallbackStep)
  }

  lemma StepsCons(n: nat)
    requires n > 0
    ensures Steps(n) == [CallbackStep] + Steps(n - 1)
  {
  }

  lemma AllValidFrom(variants: seq<ShieldBoosterVariant>, chunks: seq<seq<seq<nat>>>, i: nat)
    requires i <= |chunks| && AllValid(variants, chunks)
    ensures AllValid(variants, chunks[i..])
  {
    var tail := chunks[i..];
    forall k | 0 <= k < |tail| ensures ValidCombos(variants, tail[k]) {
      assert tail[k] == chunks[i + k];
    }
  }

  /** The fold from chunk i: an exception there, or chunk i's result folded
      in and the fold going on from chunk i + 1. */
  lemma FoldFrom(close: (real, real) -> bool, p: DamageProfile, variants: seq<ShieldBoosterVariant>,
                 loadouts: seq<LoadOut>, chunks: seq<seq<seq<nat>>>, i: nat, best: TestResult)
    requires i < |chunks| && AllValid(variants, chunks)
    ensures AllValid(variants, chunks[i..]) && AllValid(variants, chunks[i + 1..])
    ensures Evaluation(close, p, variants, loadouts, chunks[i]).Err? ==>
      FoldChunks(close, p, variants, loadouts, chunks[i..], best).Err?
    ensures Evaluation(close, p, variants, loadouts, chunks[i]).Ok? ==>
      FoldChunks(close, p, variants, loadouts, chunks[i..], best)
      == FoldChunks(close, p, variants, loadouts, chunks[i + 1..],
                    Callback(close, best, Evaluation(close, p, variants, loadouts, chunks[i]).value))
  {
    AllValidFrom(variants, chunks, i);
    AllValidFrom(variants, chunks, i + 1);
    var tail := chunks[i..];
    assert tail[0] == chunks[i] && tail[1..] == chunks[i + 1..];
  }

  /** The loop finds a result exactly when no check sees the flag and no
      chunk raises; it then holds the fold of the chunks' results and has
      made one step callback per chunk. */
  lemma {:induction false} RunFound(close: (real, real) -> bool, observe: nat -> bool, p: DamageProfile,
                                    variants: seq<ShieldBoosterVariant>, loadouts: seq<LoadOut>,
                                    chunks: seq<seq<seq<nat>>>, i: nat, best: TestResult)
    requires i <= |chunks| && AllValid(variants, chunks)
    ensures AllValid(variants, chunks[i..])
    ensures var run := Run(close, observe, p, variants, loadouts, chunks, i, best);
      run.0.Found? <==>
        (forall j :: i <= j <= |chunks| ==> !observe(j)) &&
        FoldChunks(close, p, variants, loadouts, chunks[i..], best).Ok?
    ensures var run := Run(close, observe, p, variants, loadouts, chunks, i, best);
      run.0.Found? ==>
        run.0.result == FoldChunks(close, p, variants, loadouts, chunks[i..], best).value &&
        run.1 == Steps(|chunks| - i)
    decreases |chunks| - i
  {
    AllValidFrom(variants, chunks, i);
    RunHalts(close, observe, p, variants, loadouts, chunks, i, best);
    if i == |chunks| {
      assert chunks[i..] == [];
    } else {
      FoldFrom(close, p, variants, loadouts, chunks, i, best);
      var e := Evaluation(close, p, variants, loadouts, chunks[i]);
      if e.Ok? {
        var next := Callback(close, best, e.value);
        RunFound(close, observe, p, variants, loadouts, chunks, i + 1, next);
        if !observe(i) {
          RunStep(close, observe, p, variants, loadouts, chunks, i, best);
          StepsCons(|chunks| - i);
          assert (forall j :: i <= j <= |chunks| ==> !observe(j)) <==>
            (forall j :: i + 1 <= j <= |chunks| ==> !observe(j));
        }
      }
    }
  }

  /** When the flag is first seen at check c and the chunks before it all
      evaluate, the loop ends cancelled after exactly c - i step callbacks:
      no chunk from c on is evaluated. */
  lemma {:induction false} RunCancelledAt(close: (real, real) -> bool, observe: nat -> bool, p: DamageProfile,
                                          variants: seq<ShieldBoosterVariant>, loadouts: seq<LoadOut>,
                                          chunks: seq<seq<seq<nat>>>, i: nat, best: TestResult, c: nat)
    requires i <= c <= |chunks| && AllValid(variants, chunks)
    requires observe(c) && forall j :: i <= j < c ==> !observe(j)
    requires forall j :: i <= j < c ==> Evaluation(close, p, variants, loadouts, chunks[j]).Ok?
    ensures Run(close, observe, p, variants, loadouts, chunks, i, best)
         == (Cancelled, Steps(c - i) + [CallbackCancelled])
    decreases c - i
  {
    if i < c {
      var r := Evaluation(close, p, variants, loadouts, chunks[i]).value;
      RunStep(close, observe, p, variants, loadouts, chunks, i, best);
      RunCancelledAt(close, observe, p, variants, loadouts, chunks, i + 1, Callback(close, best, r), c);
      StepsCons(c - i);
      assert [CallbackStep] + (Steps(c - (i + 1)) + [CallbackCancelled]) == Steps(c - i) + [CallbackCancelled];
    } else {
      RunHalts(close, observe, p, variants, loadouts, chunks, i, best);
      assert Steps(0) + [CallbackCancelled] == [CallbackCancelled];
    }
  }

  /** A folded result is the start value or one chunk's evaluation. */
  lemma {:induction false} FoldOrigin(close: (real, real) -> bool, p: DamageProfile, variants: seq<ShieldBoosterVariant>,
                                      loadouts: seq<LoadOut>, chunks: seq<seq<seq<nat>>>, best: TestResult)
    requires AllValid(variants, chunks)
    requires FoldChunks(close, p, variants, loadouts, chunks, best).Ok?
    ensures var x := FoldChunks(close, p, variants, loadouts, chunks, best).value;
      x == best || exists i :: 0 <= i < |chunks| && Evaluation(close, p, variants, loadouts, chunks[i]) == Ok(x)
  {
    if chunks != [] {
      var r := Evaluation(close, p, variants, loadouts, chunks[0]).value;
      var tail := chunks[1..];
      assert AllValid(variants, tail) by {
        forall k | 0 <= k < |tail| ensures ValidCombos(variants, tail[k]) {
          assert tail[k] == chunks[k + 1];
        }
      }
      FoldOrigin(close, p, variants, loadouts, tail, Callback(close, best, r));
      var x := FoldChunks(close, p, variants, loadouts, chunks, best).value;
      if x != Callback(close, best, r) {
        var i :| 0 <= i < |tail| && Evaluation(close, p, variants, loadouts, tail[i]) == Ok(x);
        assert tail[i] == chunks[i + 1];
      }
    }
  }

  /** Every combination indexes the variants and has k of them; there is
      at least one when there is a variant. */
  lemma CombinationsValid(variants: seq<ShieldBoosterVariant>, k: nat)
    ensures ValidCombos(variants, Combinations(|variants|, k))
    ensures forall t :: t in Combinations(|variants|, k) ==> |t| == k
    ensures variants != [] ==> Combinations(|variants|, k) != []
  {
    var combos := Combinations(|variants|, k);
    forall t | t in combos ensures |t| == k && ValidCombo(variants, t) {
      CombinationsExactly(|variants|, k, t);
    }
    forall i | 0 <= i < |combos| ensures ValidCombo(variants, combos[i]) {
      assert combos[i] in combos;
    }
    if variants != [] {
      var zeros := seq(k, i => 0);
      CombinationsExactly(|variants|, k, zeros);
    }
  }

  /** Every chunk of the combinations indexes the variants, and every
      combination in it has k of them. */
  lemma CombinationChunksValid(variants: seq<ShieldBoosterVariant>, k: nat)
    ensures AllValid(variants, Chunks(Combinations(|variants|, k), MpChunkSize))
    ensures forall i, t :: (0 <= i < |Chunks(Combinations(|variants|, k), MpChunkSize)| &&
                            t in Chunks(Combinations(|variants|, k), MpChunkSize)[i]) ==> |t| == k
  {
    var combos := Combinations(|variants|, k);
    CombinationsValid(variants, k);
    ChunksAllValid(variants, combos, MpChunkSize);
    ChunksMembers(combos, MpChunkSize);
  }

  // ---------------------------------------------------------------------
  // Chunking does not change the result
  // ---------------------------------------------------------------------

  ghost predicate NonEmptyChunks(chunks: seq<seq<seq<nat>>>)
  {
    forall i :: 0 <= i < |chunks| ==> chunks[i] != []
  }

  lemma ValidFlatten(variants: seq<ShieldBoosterVariant>, chunks: seq<seq<seq<nat>>>)
    requires AllValid(variants, chunks)
    ensures ValidCombos(variants, Flatten(chunks))
    decreases |chunks|
  {
    if chunks != [] {
      var tail := chunks[1..];
      assert AllValid(variants, tail) by {
        forall k | 0 <= k < |tail| ensures ValidCombos(variants, tail[k]) {
          assert tail[k] == chunks[k + 1];
        }
      }
      ValidFlatten(variants, tail);
      ValidCombosAppend(variants, chunks[0], Flatten(tail));
    }
  }

  /** The chunks of valid combinations are valid, non-empty, and together
      the combinations. */
  lemma ChunksAllValid(variants: seq<ShieldBoosterVariant>, combos: seq<seq<nat>>, n: nat)
    requires n > 0 && ValidCombos(variants, combos)
    ensures AllValid(variants, Chunks(combos, n)) && NonEmptyChunks(Chunks(combos, n))
    ensures Flatten(Chunks(combos, n)) == combos
    ensures combos != [] ==> Chunks(combos, n) != []
  {
    var chunks := Chunks(combos, n);
    ChunksMembers(combos, n);
    ChunksSizes(combos, n);
    ChunksCount(combos, n);
    ChunksFlatten(combos, n);
    forall i | 0 <= i < |chunks| ensures ValidCombos(variants, chunks[i]) {
      forall j | 0 <= j < |chunks[i]| ensures ValidCombo(variants, chunks[i][j]) {
        var t := chunks[i][j];
        assert t in chunks[i];
        assert t in combos;
        var k :| 0 <= k < |combos| && combos[k] == t;
      }
    }
  }

  /** The first chunk and the rest: both valid, and the candidates of all
      the chunks are those of the first followed by those of the rest. */
  lemma SplitFirstChunk(p: DamageProfile, variants: seq<ShieldBoosterVariant>, loadouts: seq<LoadOut>,
                        chunks: seq<seq<seq<nat>>>)
    requires chunks != [] && AllValid(variants, chunks) && NonEmptyChunks(chunks)
    ensures AllValid(variants, chunks[1..]) && NonEmptyChunks(chunks[1..])
    ensures ValidCombos(variants, chunks[0]) && chunks[0] != []
    ensures ValidCombos(variants, Flatten(chunks[1..])) && ValidCombos(variants, Flatten(chunks))
    ensures Candidates(p, variants, loadouts, Flatten(chunks))
         == Candidates(p, variants, loadouts, chunks[0]) + Candidates(p, variants, loadouts, Flatten(chunks[1..]))
  {
    var tail := chunks[1..];
    assert AllValid(variants, tail) && NonEmptyChunks(tail) by {
      forall k | 0 <= k < |tail| ensures ValidCombos(variants, tail[k]) && tail[k] != [] {
        assert tail[k] == chunks[k + 1];
      }
    }
    ValidFlatten(variants, tail);
    ValidFlatten(variants, chunks);
    assert Flatten(chunks) == chunks[0] + Flatten(tail);
    CandidatesAppend(p, variants, loadouts, chunks[0], Flatten(tail));
  }

  /** One chunk evaluated and passed to the callback after the best of the
      candidates A leaves the best of A followed by the chunk's candidates. */
  lemma ChunkStep(close: (real, real) -> bool, p: DamageProfile, variants: seq<ShieldBoosterVariant>,
                  loadouts: seq<LoadOut>, c: seq<seq<nat>>, a: seq<Candidate>)
    requires Exact(close) && loadouts != [] && c != [] && ValidCombos(variants, c)
    requires a != [] && WellPosed(a) && WellPosed(Candidates(p, variants, loadouts, c))
    ensures Candidates(p, variants, loadouts, c) != []
    ensures WellPosed(a + Candidates(p, variants, loadouts, c))
    ensures Evaluation(close, p, variants, loadouts, c) == Ok(ResultOf(LeftMax(Candidates(p, variants, loadouts, c))))
    ensures Callback(close, ResultOf(LeftMax(a)), ResultOf(LeftMax(Candidates(p, variants, loadouts, c))))
         == ResultOf(LeftMax(a + Candidates(p, variants, loadouts, c)))
  {
    var cc := Candidates(p, variants, loadouts, c);
    CandidatesLength(p, variants, loadouts, c);
    assert |cc| > 0 by {
      assert |c| * |loadouts| >= 1 * |loadouts|;
    }
    EvaluationPicksBest(close, p, variants, loadouts, c);
    CallbackPick(close, LeftMax(a), LeftMax(cc));
    LeftMaxAppend(a, cc);
  }

  lemma ConcatAssoc<T>(x: seq<T>, y: seq<T>, z: seq<T>)
    ensures (x + y) + z == x + (y + z)
  {
  }

  /** Folding the chunks after a held best of candidates A gives the best
      of A followed by every candidate of the chunks. */
  lemma {:induction false} FoldChunksLeftMax(close: (real, real) -> bool, p: DamageProfile,
                                             variants: seq<ShieldBoosterVariant>, loadouts: seq<LoadOut>,
                                             chunks: seq<seq<seq<nat>>>, a: seq<Candidate>)
    requires Exact(close) && loadouts != [] && AllValid(variants, chunks) && NonEmptyChunks(chunks)
    requires a != [] && WellPosed(a) && ValidCombos(variants, Flatten(chunks))
    requires WellPosed(a + Candidates(p, variants, loadouts, Flatten(chunks)))
    ensures FoldChunks(close, p, variants, loadouts, chunks, ResultOf(LeftMax(a)))
         == Ok(ResultOf(LeftMax(a + Candidates(p, variants, loadouts, Flatten(chunks)))))
    decreases |chunks|
  {
    var all := Candidates(p, variants, loadouts, Flatten(chunks));
    WellPosedAppend(a, all);
    if chunks == [] {
      assert a + all == a;
    } else {
      SplitFirstChunk(p, variants, loadouts, chunks);
      var cc := Candidates(p, variants, loadouts, chunks[0]);
      var rest := Candidates(p, variants, loadouts, Flatten(chunks[1..]));
      assert all == cc + rest;
      WellPosedAppend(cc, rest);
      assert WellPosed(cc);
      assert chunks[0] != [] && ValidCombos(variants, chunks[0]);
      ChunkStep(close, p, variants, loadouts, chunks[0], a);
      ConcatAssoc(a, cc, rest);
      FoldChunksLeftMax(close, p, variants, loadouts, chunks[1..], a + cc);
    }
  }

  /** With exact closeness and well-posed candidates, cutting the
      combinations into chunks of any positive size and folding the chunks'
      results through the callback gives what one evaluation of all the
      combinations gives. */
  lemma ChunkingAgrees(close: (real, real) -> bool, p: DamageProfile, variants: seq<ShieldBoosterVariant>,
                       loadouts: seq<LoadOut>, combos: seq<seq<nat>>, n: nat)
    requires Exact(close) && n > 0 && combos != [] && loadouts != []
    requires ValidCombos(variants, combos)
    requires WellPosed(Candidates(p, variants, loadouts, combos))
    ensures AllValid(variants, Chunks(combos, n))
    ensures FoldChunks(close, p, variants, loadouts, Chunks(combos, n), Start)
         == Evaluation(close, p, variants, loadouts, combos)
  {
    var chunks := Chunks(combos, n);
    ChunksAllValid(variants, combos, n);
    SplitFirstChunk(p, variants, loadouts, chunks);
    var cc := Candidates(p, variants, loadouts, chunks[0]);
    var rest := Candidates(p, variants, loadouts, Flatten(chunks[1..]));
    WellPosedAppend(cc, rest);
    CandidatesLength(p, variants, loadouts, chunks[0]);
    assert |cc| > 0 by {
      assert |chunks[0]| * |loadouts| >= 1 * |loadouts|;
    }
    EvaluationPicksBest(close, p, variants, loadouts, chunks[0]);
    CallbackStart(close, LeftMax(cc));
    FoldChunksLeftMax(close, p, variants, loadouts, chunks[1..], cc);
    EvaluationPicksBest(close, p, variants, loadouts, combos);
  }

  /** Without a cancel, the chunk loop over combinations whose candidates
      are well posed finds what one evaluation of them all finds, after one
      step callback per chunk. */
  lemma SearchFinds(close: (real, real) -> bool, observe: nat -> bool, p: DamageProfile,
                    variants: seq<ShieldBoosterVariant>, loadouts: seq<LoadOut>, combos: seq<seq<nat>>)
    requires Exact(close) && (forall j :: !observe(j)) && combos != [] && loadouts != []
    requires ValidCombos(variants, combos) && WellPosed(Candidates(p, variants, loadouts, combos))
    ensures AllValid(variants, Chunks(combos, MpChunkSize))
    ensures Evaluation(close, p, variants, loadouts, combos).Ok?
    ensures Run(close, observe, p, variants, loadouts, Chunks(combos, MpChunkSize), 0, Start)
         == (Found(Evaluation(close, p, variants, loadouts, combos).value), Steps(|Chunks(combos, MpChunkSize)|))
  {
    var chunks := Chunks(combos, MpChunkSize);
    ChunkingAgrees(close, p, variants, loadouts, combos, MpChunkSize);
    EvaluationPicksBest(close, p, variants, loadouts, combos);
    RunFound(close, observe, p, variants, loadouts, chunks, 0, Start);
    assert chunks[0..] == chunks;
  }

  // ---------------------------------------------------------------------
  // The preliminary filter
  // ---------------------------------------------------------------------

  /** A loadout's unboosted stats: the evaluator's formulas with every
      booster multiplier 1. */
  function Unboosted(p: DamageProfile, l: LoadOut): Candidate
  {
    Assess(p, [], Bonuses(1.0, 1.0, 1.0, 1.0), l)
  }

  /** The key of `preliminary_list_survived`: the net dps of a ship that
      never dies. */
  function SurvivorKey(p: DamageProfile): LoadOut -> Option<real>
  {
    l => if Unboosted(p, l).dps < 0.0 then Some(Unboosted(p, l).dps) else None
  }

  /** The key of `preliminary_list`: the survival time of a ship that dies. */
  function FiniteKey(p: DamageProfile): LoadOut -> Option<real>
  {
    l => var c := Unboosted(p, l); if c.dps > 0.0 then Some(c.total / c.dps) else None
  }

  /** (key, loadout) for the loadouts that have a key, in list order. */
  function Collect(ls: seq<LoadOut>, key: LoadOut -> Option<real>): seq<(real, LoadOut)>
  {
    if ls == [] then []
    else
      var l := ls[|ls| - 1];
      Collect(ls[..|ls| - 1], key) + (if key(l).Some? then [(key(l).value, l)] else [])
  }

  function Seconds<T>(s: seq<(real, T)>): (r: seq<T>)
    ensures |r| == |s| && forall i :: 0 <= i < |s| ==> r[i] == s[i].1
  {
    seq(|s|, i requires 0 <= i < |s| => s[i].1)
  }

  /** `s[:m]`. */
  function Take<T>(s: seq<T>, m: nat): (r: seq<T>)
    ensures |r| == if m <= |s| then m else |s|
    ensures s == r + s[|r|..]
  {
    if m <= |s| then s[..m] else s
  }

  /** The pre-filter: a net dps of 0 divides by zero; otherwise the first
      prelim ships that never die by ascending net dps, or, when there are
      none, the first prelim by descending survival time. */
  function Prefiltered(p: DamageProfile, ls: seq<LoadOut>, prelim: nat): Result<seq<LoadOut>, EvalError>
  {
    if exists i :: 0 <= i < |ls| && Unboosted(p, ls[i]).dps == 0.0 then Err(ZeroDivision)
    else if |Collect(ls, SurvivorKey(p))| > 0 then Ok(Seconds(Take(SortBy(Collect(ls, SurvivorKey(p)), false), prelim)))
    else Ok(Seconds(Take(SortBy(Collect(ls, FiniteKey(p)), true), prelim)))
  }

  /** The pre-filter of `compute`: the loop, then one sort and one slice. */
  method Prefilter(p: DamageProfile, loadouts: seq<LoadOut>, prelim: nat) returns (r: Result<seq<LoadOut>, EvalError>)
    ensures r == Prefiltered(p, loadouts, prelim)
  {
    var lists := PrelimLists(p, loadouts);
    if lists.Err? {
      return Err(lists.error);
    }
    var preliminaryList := lists.value.0;
    var preliminaryListSurvived := lists.value.1;
    if |preliminaryListSurvived| > 0 {
      preliminaryListSurvived := SortBy(preliminaryListSurvived, false);
      r := Ok(Seconds(Take(preliminaryListSurvived, prelim)));
    } else {
      preliminaryList := SortBy(preliminaryList, true);
      r := Ok(Seconds(Take(preliminaryList, prelim)));
    }
  }

  /** The loop of the pre-filter: (survival time, loadout) for the ships
      that die and (net dps, loadout) for those that never do, or the
      division by zero of a net dps of 0. */
  method PrelimLists(p: DamageProfile, loadouts: seq<LoadOut>)
    returns (r: Result<(seq<(real, LoadOut)>, seq<(real, LoadOut)>), EvalError>)
    ensures r.Err? <==> exists i :: 0 <= i < |loadouts| && Unboosted(p, loadouts[i]).dps == 0.0
    ensures r.Err? ==> r.error == ZeroDivision
    ensures r.Ok? ==> r.value == (Collect(loadouts, FiniteKey(p)), Collect(loadouts, SurvivorKey(p)))
  {
    var preliminaryList: seq<(real, LoadOut)> := [];
    var preliminaryListSurvived: seq<(real, LoadOut)> := [];
    var i := 0;
    while i < |loadouts|
      invariant 0 <= i <= |loadouts|
      invariant preliminaryList == Collect(loadouts[..i], FiniteKey(p))
      invariant preliminaryListSurvived == Collect(loadouts[..i], SurvivorKey(p))
      invariant forall j :: 0 <= j < i ==> Unboosted(p, loadouts[j]).dps != 0.0
    {
      var loadout := loadouts[i];
      var c := Unboosted(p, loadout);
      if c.dps == 0.0 {
        return Err(ZeroDivision);
      }
      CollectSnoc(loadouts, i, FiniteKey(p));
      CollectSnoc(loadouts, i, SurvivorKey(p));
      var survivalTime := c.total / c.dps;
      if c.dps > 0.0 {
        preliminaryList := preliminaryList + [(survivalTime, loadout)];
      } else if c.dps < 0.0 {
        preliminaryListSurvived := preliminaryListSurvived + [(c.dps, loadout)];
      }
      i := i + 1;
    }
    assert loadouts[..i] == loadouts;
    r := Ok((preliminaryList, preliminaryListSurvived));
  }

  lemma CollectSnoc(ls: seq<LoadOut>, i: nat, key: LoadOut -> Option<real>)
    requires i < |ls|
    ensures Collect(ls[..i + 1], key)
         == Collect(ls[..i], key) + (if key(ls[i]).Some? then [(key(ls[i]).value, ls[i])] else [])
  {
    assert ls[..i + 1][..i] == ls[..i];
  }

  /** What a successful pre-filter returns. */
  lemma PrefilteredOk(p: DamageProfile, ls: seq<LoadOut>, prelim: nat)
    requires Prefiltered(p, ls, prelim).Ok?
    ensures var survived := |Collect(ls, SurvivorKey(p))| > 0;
      Prefiltered(p, ls, prelim).value
      == Seconds(Take(SortBy(Collect(ls, if survived then SurvivorKey(p) else FiniteKey(p)), !survived), prelim))
  {
  }

  /** The collected pairs are exactly the keyed loadouts with their keys,
      each loadout at most as often as the list has it. */
  lemma CollectExactly(ls: seq<LoadOut>, key: LoadOut -> Option<real>)
    ensures forall e :: e in Collect(ls, key) ==> e.1 in ls && key(e.1) == Some(e.0)
    ensures forall i :: 0 <= i < |ls| && key(ls[i]).Some? ==> (key(ls[i]).value, ls[i]) in Collect(ls, key)
    ensures multiset(Seconds(Collect(ls, key))) <= multiset(ls)
  {
    CollectSound(ls, key);
    CollectComplete(ls, key);
    CollectMultiset(ls, key);
  }

  /** One more loadout adds its pair when it has a key. */
  lemma CollectLast(ls: seq<LoadOut>, key: LoadOut -> Option<real>)
    requires ls != []
    ensures var l := ls[|ls| - 1];
      ls == ls[..|ls| - 1] + [l] &&
      Collect(ls, key) == Collect(ls[..|ls| - 1], key) + (if key(l).Some? then [(key(l).value, l)] else [])
  {
  }

  lemma {:induction false} CollectSound(ls: seq<LoadOut>, key: LoadOut -> Option<real>)
    ensures forall e :: e in Collect(ls, key) ==> e.1 in ls && key(e.1) == Some(e.0)
  {
    if ls != [] {
      var init := ls[..|ls| - 1];
      CollectSound(init, key);
      CollectLast(ls, key);
      forall e | e in Collect(ls, key) ensures e.1 in ls && key(e.1) == Some(e.0) {
        if e in Collect(init, key) {
          assert e.1 in init;
        }
      }
    }
  }

  lemma {:induction false} CollectComplete(ls: seq<LoadOut>, key: LoadOut -> Option<real>)
    ensures forall i :: 0 <= i < |ls| && key(ls[i]).Some? ==> (key(ls[i]).value, ls[i]) in Collect(ls, key)
  {
    if ls != [] {
      var init := ls[..|ls| - 1];
      CollectComplete(init, key);
      CollectLast(ls, key);
      forall i | 0 <= i < |ls| && key(ls[i]).Some?
        ensures (key(ls[i]).value, ls[i]) in Collect(ls, key)
      {
        if i < |ls| - 1 {
          assert ls[i] == init[i];
        }
      }
    }
  }

  lemma {:induction false} CollectMultiset(ls: seq<LoadOut>, key: LoadOut -> Option<real>)
    ensures multiset(Seconds(Collect(ls, key))) <= multiset(ls)
  {
    if ls != [] {
      var init := ls[..|ls| - 1];
      var l := ls[|ls| - 1];
      CollectMultiset(init, key);
      CollectLast(ls, key);
      var s0 := Collect(init, key);
      var s1 := if key(l).Some? then [(key(l).value, l)] else [];
      SecondsAppend(s0, s1);
      assert multiset(ls) == multiset(init) + multiset{l};
      assert multiset(Seconds(s0 + s1)) == multiset(Seconds(s0)) + multiset(Seconds(s1));
    }
  }

  lemma SecondsAppend<T>(x: seq<(real, T)>, y: seq<(real, T)>)
    ensures Seconds(x + y) == Seconds(x) + Seconds(y)
  {
  }

  lemma SecondsCons<T>(s: seq<(real, T)>)
    requires s != []
    ensures Seconds(s) == [s[0].1] + Seconds(s[1..])
  {
    var r := [s[0].1] + Seconds(s[1..]);
    assert forall i :: 0 <= i < |s| ==> Seconds(s)[i] == r[i];
  }

  lemma SecondsSplit<T>(u: seq<(real, T)>, x: (real, T), w: seq<(real, T)>)
    ensures multiset(Seconds(u + [x] + w)) == multiset{x.1} + multiset(Seconds(u + w))
  {
    SecondsAppend(u + [x], w);
    SecondsAppend(u, [x]);
    SecondsAppend(u, w);
  }

  lemma MultisetCancel<T>(x: T, a: multiset<T>, b: multiset<T>)
    requires multiset{x} + a <= multiset{x} + b
    ensures a <= b
  {
    forall y ensures a[y] <= b[y] {
      assert (multiset{x} + a)[y] <= (multiset{x} + b)[y];
    }
  }

  lemma MultisetAddMono<T>(x: T, a: multiset<T>, b: multiset<T>)
    requires a <= b
    ensures multiset{x} + a <= multiset{x} + b
  {
  }

  /** A sub-multiset of pairs has a sub-multiset of second components. */
  lemma {:induction false} SecondsMultiset<T>(a: seq<(real, T)>, b: seq<(real, T)>)
    requires multiset(a) <= multiset(b)
    ensures multiset(Seconds(a)) <= multiset(Seconds(b))
    decreases |a|
  {
    if a != [] {
      var x := a[0];
      var a' := a[1..];
      assert a == [x] + a';
      assert x in multiset(b);
      var k :| 0 <= k < |b| && b[k] == x;
      var u, w := b[..k], b[k + 1..];
      assert b == u + [x] + w;
      assert multiset(b) == multiset{x} + multiset(u + w);
      MultisetCancel(x, multiset(a'), multiset(u + w));
      SecondsMultiset(a', u + w);
      SecondsCons(a);
      MultisetAddMono(x.1, multiset(Seconds(a')), multiset(Seconds(u + w)));
      SecondsSplit(u, x, w);
    }
  }

  /** Sorting the collected pairs and keeping the first m: the kept
      loadouts come from the list with their keys, and no kept key goes
      after a dropped one in the sort order. */
  lemma {:induction false} KeptByKey(ls: seq<LoadOut>, key: LoadOut -> Option<real>, desc: bool, m: nat)
    ensures var s := SortBy(Collect(ls, key), desc);
      var kept := Take(s, m);
      multiset(Seconds(kept)) <= multiset(ls) &&
      (forall i :: 0 <= i < |kept| ==> key(kept[i].1) == Some(kept[i].0)) &&
      (forall i, j :: 0 <= i < |kept| <= j < |s| ==> if desc then s[i].0 >= s[j].0 else s[i].0 <= s[j].0)
  {
    var group := Collect(ls, key);
    var s := SortBy(group, desc);
    var kept := Take(s, m);
    SortBySorted(group, desc);
    CollectExactly(ls, key);
    assert multiset(kept) <= multiset(s) by {
      assert s == kept + s[|kept|..];
    }
    SecondsMultiset(kept, group);
    forall i | 0 <= i < |kept| ensures key(kept[i].1) == Some(kept[i].0) {
      assert kept[i] == s[i];
      assert s[i] in multiset(group);
    }
    forall i, j | 0 <= i < |kept| <= j < |s| ensures if desc then s[i].0 >= s[j].0 else s[i].0 <= s[j].0 {
      assert !Precedes(s[j], s[i], desc);
    }
  }

  /** The pre-filter fails exactly on a net dps of 0; otherwise it keeps a
      sub-multiset of the loadouts, at most prelim of them and at least one
      when there is one to keep. */
  lemma {:induction false} PrefilterKeeps(p: DamageProfile, ls: seq<LoadOut>, prelim: nat)
    ensures Prefiltered(p, ls, prelim).Err? <==> exists i :: 0 <= i < |ls| && Unboosted(p, ls[i]).dps == 0.0
    ensures Prefiltered(p, ls, prelim).Ok? ==>
      multiset(Prefiltered(p, ls, prelim).value) <= multiset(ls) &&
      |Prefiltered(p, ls, prelim).value| <= prelim &&
      (ls != [] && prelim > 0 ==> Prefiltered(p, ls, prelim).value != [])
  {
    if !exists i :: 0 <= i < |ls| && Unboosted(p, ls[i]).dps == 0.0 {
      var survived := |Collect(ls, SurvivorKey(p))| > 0;
      var key := if survived then SurvivorKey(p) else FiniteKey(p);
      assert Prefiltered(p, ls, prelim) == Ok(Seconds(Take(SortBy(Collect(ls, key), !survived), prelim)));
      KeptFromList(ls, key, !survived, prelim);
      if ls != [] && !survived {
        SomeShipDies(p, ls);
      }
    }
  }

  /** Without a net dps of 0 and without a ship that never dies, every ship
      dies: the dying ships' list is as long as the loadout list. */
  lemma {:induction false} SomeShipDies(p: DamageProfile, ls: seq<LoadOut>)
    requires ls != [] && forall i :: 0 <= i < |ls| ==> Unboosted(p, ls[i]).dps != 0.0
    requires Collect(ls, SurvivorKey(p)) == []
    ensures Collect(ls, FiniteKey(p)) != []
  {
    CollectExactly(ls, SurvivorKey(p));
    CollectExactly(ls, FiniteKey(p));
    assert SurvivorKey(p)(ls[0]).None?;
    assert FiniteKey(p)(ls[0]).Some?;
  }

  /** Sorting the collected pairs and keeping the first m keeps at most m
      loadouts of the list, and at least one when m > 0 and a loadout has a
      key. */
  lemma {:induction false} KeptFromList(ls: seq<LoadOut>, key: LoadOut -> Option<real>, desc: bool, m: nat)
    ensures var kept := Seconds(Take(SortBy(Collect(ls, key), desc), m));
      multiset(kept) <= multiset(ls) && |kept| <= m &&
      (m > 0 && Collect(ls, key) != [] ==> kept != [])
  {
    KeptByKey(ls, key, desc, m);
  }

  /** Which loadouts the pre-filter keeps: when some ship never dies, only
      such ships, none with a higher net dps than one it drops; otherwise
      only ships that die, none lasting shorter than one it drops. Among
      loadouts of equal key, the kept ones are the earliest in list order
      (the sort is stable). */
  lemma PrefilterChoice(p: DamageProfile, ls: seq<LoadOut>, prelim: nat)
    requires Prefiltered(p, ls, prelim).Ok?
    ensures var survived := |Collect(ls, SurvivorKey(p))| > 0;
      var g := Collect(ls, if survived then SurvivorKey(p) else FiniteKey(p));
      var s := SortBy(g, !survived);
      var m := MinInt(prelim, |s|);
      Prefiltered(p, ls, prelim).value == Seconds(s[..m]) &&
      (forall i, j :: 0 <= i < m <= j < |s| ==> if survived then s[i].0 <= s[j].0 else s[i].0 >= s[j].0) &&
      (forall v :: KeyFilter(s[..m], v) <= KeyFilter(g, v)) &&
      (forall i :: 0 <= i < m ==>
        if survived then Unboosted(p, s[i].1).dps < 0.0 && s[i].0 == Unboosted(p, s[i].1).dps
        else Unboosted(p, s[i].1).dps > 0.0 && s[i].0 == Unboosted(p, s[i].1).total / Unboosted(p, s[i].1).dps)
  {
    var survived := |Collect(ls, SurvivorKey(p))| > 0;
    var key := if survived then SurvivorKey(p) else FiniteKey(p);
    var s := SortBy(Collect(ls, key), !survived);
    PrefilteredOk(p, ls, prelim);
    KeptByKey(ls, key, !survived, prelim);
    var m := MinInt(prelim, |s|);
    assert Take(s, prelim) == s[..m];
    forall v ensures KeyFilter(s[..m], v) <= KeyFilter(Collect(ls, key), v) {
      KeyFilterPrefix(s, m, v);
      SortByStable(Collect(ls, key), !survived, v);
    }
    forall i | 0 <= i < m
      ensures if survived then Unboosted(p, s[i].1).dps < 0.0 && s[i].0 == Unboosted(p, s[i].1).dps
              else Unboosted(p, s[i].1).dps > 0.0 && s[i].0 == Unboosted(p, s[i].1).total / Unboosted(p, s[i].1).dps
    {
      assert Take(s, prelim)[i] == s[i];
      var c := Unboosted(p, s[i].1);
      if survived {
        assert SurvivorKey(p)(s[i].1) == Some(s[i].0);
        assert c.dps < 0.0 && s[i].0 == c.dps;
      } else {
        assert FiniteKey(p)(s[i].1) == Some(s[i].0);
        assert c.dps > 0.0 && s[i].0 == c.total / c.dps;
      }
    }
  }

  // ---------------------------------------------------------------------
  // compute, as a function of its inputs
  // ---------------------------------------------------------------------

  /** `max(0, min(ship.utility_slots, number_of_boosters_to_test))`. */
  function ClampBoosters(k: int, slots: nat): (a: nat)
    ensures a <= slots
    ensures 0 <= k <= slots ==> a == k
    ensures k > slots ==> a == slots
    ensures k < 0 ==> a == 0
  {
    if k < 0 then 0 else if k <= slots then k else slots
  }

  /** The outcome, the callbacks made and the test case's loadout list
      afterwards. */
  datatype Computation = Computation(outcome: Outcome, events: seq<Event>, loadoutList: Option<seq<LoadOut>>)

  function ComputeSpec(close: (real, real) -> bool, observe: nat -> bool, hasQueue: bool, hasCallback: bool, p: DamageProfile,
                       ship: StarShip, k: int, variants: Option<seq<ShieldBoosterVariant>>,
                       loadouts: Option<seq<LoadOut>>, prelim: int): Computation
  {
    if variants.None? || variants.value == [] || loadouts.None? || loadouts.value == [] then
      Computation(NothingToTest, [], loadouts)
    else
      var filtered := if prelim > 0 && prelim != |loadouts.value| then Prefiltered(p, loadouts.value, prelim)
                      else Ok(loadouts.value);
      match filtered
      case Err(e) => Computation(Raised(e), [], loadouts)
      case Ok(list) =>
        var amount := ClampBoosters(k, ship.UtilitySlots());
        CombinationChunksValid(variants.value, amount);
        var chunks := Chunks(Combinations(|variants.value|, amount), MpChunkSize);
        var run := Run(close, observe, p, variants.value, list, chunks, 0, Start);
        Computation(run.0,
                    (if hasQueue && hasCallback then [CallbackMessage] else [])
                    + (if hasCallback then run.1 else [])
                    + (if hasQueue && hasCallback && run.0.Found? then [CallbackMessage] else []),
                    Some(list))
  }

  /** Without a cancel, with exact closeness and well-posed candidates,
      `compute` finds what one evaluation of every combination against the
      (pre-filtered) loadouts finds, after one step callback per chunk. */
  lemma ComputeAgreesWithOneEvaluation(close: (real, real) -> bool, observe: nat -> bool, hasQueue: bool, hasCallback: bool,
                                       p: DamageProfile, ship: StarShip, k: int,
                                       variants: seq<ShieldBoosterVariant>, loadouts: seq<LoadOut>, prelim: int)
    requires Exact(close) && forall j :: !observe(j)
    requires variants != [] && loadouts != []
    requires prelim <= 0 || prelim == |loadouts| || Prefiltered(p, loadouts, prelim).Ok?
    ensures var c := ComputeSpec(close, observe, hasQueue, hasCallback, p, ship, k, Some(variants), Some(loadouts), prelim);
      var combos := Combinations(|variants|, ClampBoosters(k, ship.UtilitySlots()));
      c.loadoutList.Some? && c.loadoutList.value != [] &&
      ValidCombos(variants, combos) &&
      (WellPosed(Candidates(p, variants, c.loadoutList.value, combos)) ==>
        Evaluation(close, p, variants, c.loadoutList.value, combos).Ok? &&
        c.outcome == Found(Evaluation(close, p, variants, c.loadoutList.value, combos).value) &&
        c.events == if !hasCallback then []
                    else (if hasQueue then [CallbackMessage] else []) + Steps(|Chunks(combos, MpChunkSize)|)
                         + (if hasQueue then [CallbackMessage] else []))
  {
    var c := ComputeSpec(close, observe, hasQueue, hasCallback, p, ship, k, Some(variants), Some(loadouts), prelim);
    var amount := ClampBoosters(k, ship.UtilitySlots());
    var combos := Combinations(|variants|, amount);
    if prelim > 0 && prelim != |loadouts| {
      PrefilterKeeps(p, loadouts, prelim);
    }
    var list := c.loadoutList.value;
    CombinationsValid(variants, amount);
    if WellPosed(Candidates(p, variants, list, combos)) {
      SearchFinds(close, observe, p, variants, list, combos);
    }
  }

  /** Cancelling before the first chunk: no chunk is evaluated and the only
      callbacks are the opening message and the cancel. */
  lemma ComputeCancelledFirst(close: (real, real) -> bool, observe: nat -> bool, hasQueue: bool, hasCallback: bool,
                              p: DamageProfile, ship: StarShip, k: int,
                              variants: seq<ShieldBoosterVariant>, loadouts: seq<LoadOut>, prelim: int)
    requires observe(0) && variants != [] && loadouts != []
    requires prelim <= 0 || prelim == |loadouts| || Prefiltered(p, loadouts, prelim).Ok?
    ensures var c := ComputeSpec(close, observe, hasQueue, hasCallback, p, ship, k, Some(variants), Some(loadouts), prelim);
      c.outcome == Cancelled &&
      c.events == if hasCallback then (if hasQueue then [CallbackMessage] else []) + [CallbackCancelled] else []
  {
    var amount := ClampBoosters(k, ship.UtilitySlots());
    CombinationChunksValid(variants, amount);
    var chunks := Chunks(Combinations(|variants|, amount), MpChunkSize);
    var list := if prelim > 0 && prelim != |loadouts| then Prefiltered(p, loadouts, prelim).value else loadouts;
    RunHalts(close, observe, p, variants, list, chunks, 0, Start);
    assert Run(close, observe, p, variants, list, chunks, 0, Start) == (Cancelled, [CallbackCancelled]);
  }

  /** A result found by `compute` with a loadout is one of the (pre-filtered)
      loadouts fitted with exactly as many boosters as the clamped count. */
  lemma ComputeResultShape(close: (real, real) -> bool, observe: nat -> bool, hasQueue: bool, hasCallback: bool,
                           p: DamageProfile, ship: StarShip, k: int,
                           variants: Option<seq<ShieldBoosterVariant>>, loadouts: Option<seq<LoadOut>>, prelim: int)
    requires var c := ComputeSpec(close, observe, hasQueue, hasCallback, p, ship, k, variants, loadouts, prelim);
      c.outcome.Found? && c.outcome.result.loadout.Some?
    ensures var c := ComputeSpec(close, observe, hasQueue, hasCallback, p, ship, k, variants, loadouts, prelim);
      var l := c.outcome.result.loadout.value;
      c.loadoutList.Some? && l.boosters.Some? &&
      |l.boosters.value| == ClampBoosters(k, ship.UtilitySlots()) &&
      exists j :: 0 <= j < |c.loadoutList.value| && l == c.loadoutList.value[j].(boosters := l.boosters)
  {
    var c := ComputeSpec(close, observe, hasQueue, hasCallback, p, ship, k, variants, loadouts, prelim);
    var amount := ClampBoosters(k, ship.UtilitySlots());
    CombinationChunksValid(variants.value, amount);
    var chunks := Chunks(Combinations(|variants.value|, amount), MpChunkSize);
    var list := c.loadoutList.value;
    RunFound(close, observe, p, variants.value, list, chunks, 0, Start);
    assert chunks[0..] == chunks;
    FoldResultShape(close, p, variants.value, list, chunks, amount);
  }

  /** A loadout the chunked fold finds is one of the list with one combination
      of `amount` boosters. */
  lemma FoldResultShape(close: (real, real) -> bool, p: DamageProfile, variants: seq<ShieldBoosterVariant>,
                        list: seq<LoadOut>, chunks: seq<seq<seq<nat>>>, amount: nat)
    requires AllValid(variants, chunks)
    requires forall i, t :: 0 <= i < |chunks| && t in chunks[i] ==> |t| == amount
    requires FoldChunks(close, p, variants, list, chunks, Start).Ok?
    requires FoldChunks(close, p, variants, list, chunks, Start).value.loadout.Some?
    ensures var l := FoldChunks(close, p, variants, list, chunks, Start).value.loadout.value;
      l.boosters.Some? && |l.boosters.value| == amount &&
      exists j :: 0 <= j < |list| && l == list[j].(boosters := l.boosters)
  {
    FoldOrigin(close, p, variants, list, chunks, Start);
    var x := FoldChunks(close, p, variants, list, chunks, Start).value;
    var i :| 0 <= i < |chunks| && Evaluation(close, p, variants, list, chunks[i]) == Ok(x);
    EvaluationOrigin(close, p, variants, list, chunks[i]);
    var a, j :| 0 <= a < |chunks[i]| && 0 <= j < |list| &&
      x.loadout == Some(list[j].(boosters := Some(Boosters(variants, chunks[i][a])))) &&
      |Boosters(variants, chunks[i][a])| == |chunks[i][a]|;
    assert chunks[i][a] in chunks[i];
  }

  // ---------------------------------------------------------------------
  // Booster variants to test
  // ---------------------------------------------------------------------

  /** The variants `set_boosters_to_test` keeps, in load order. */
  function ShortList(variants: seq<ShieldBoosterVariant>, shortList: bool): seq<ShieldBoosterVariant>
  {
    if variants == [] then []
    else (if variants[0].canSkip && shortList then [] else [variants[0]]) + ShortList(variants[1..], shortList)
  }

  /** The short list drops exactly the variants that may be skipped; the
      full list is every variant. */
  lemma {:induction false} ShortListExactly(variants: seq<ShieldBoosterVariant>, shortList: bool)
    ensures forall v :: v in ShortList(variants, shortList) <==> v in variants && !(v.canSkip && shortList)
    ensures !shortList ==> ShortList(variants, shortList) == variants
  {
    if variants != [] {
      ShortListExactly(variants[1..], shortList);
      assert variants == [variants[0]] + variants[1..];
    }
  }

  // ---------------------------------------------------------------------
  // Compatible generator classes
  // ---------------------------------------------------------------------

  /** Every class of a generator table holds a generator. */
  predicate NonEmptyClasses(t: Items<seq<ShieldGenerator>>)
  {
    forall i :: 0 <= i < |t| ==> t[i].1 != []
  }

  /** The generator tables as loading builds them: a "normal" table whose
      every class holds a generator. */
  predicate GeneratorsLoaded(g: map<string, Items<seq<ShieldGenerator>>>)
  {
    TypeNormal in g && NonEmptyClasses(g[TypeNormal])
  }

  /** The first generator of the class takes a hull heavier than the ship's. */
  predicate Fits(normal: Items<seq<ShieldGenerator>>, cls: int, hullMass: real)
    requires NonEmptyClasses(normal) && HasKey(normal, cls)
  {
    var v := Collections.Get(normal, cls);
    assert exists i :: 0 <= i < |normal| && normal[i] == (cls, v);
    v[0].maxmass > hullMass
  }

  /** The smallest class that fits. */
  ghost predicate LeastFitting(normal: Items<seq<ShieldGenerator>>, cls: int, hullMass: real)
    requires NonEmptyClasses(normal)
  {
    HasKey(normal, cls) && Fits(normal, cls, hullMass) &&
    forall j :: HasKey(normal, j) && j < cls ==> !Fits(normal, j, hullMass)
  }

  /** The loop of `get_compatible_shield_generator_classes`: the first of
      `classes` that fits, or 0. */
  function MinClass(normal: Items<seq<ShieldGenerator>>, classes: seq<int>, hullMass: real): (c: int)
    requires NonEmptyClasses(normal) && forall k :: k in classes ==> HasKey(normal, k)
    ensures (c == 0 && forall k :: k in classes ==> !Fits(normal, k, hullMass)) ||
      exists i :: 0 <= i < |classes| && c == classes[i] && Fits(normal, c, hullMass) &&
        forall j :: 0 <= j < i ==> !Fits(normal, classes[j], hullMass)
  {
    if classes == [] then 0
    else if Fits(normal, classes[0], hullMass) then classes[0]
    else
      var c := MinClass(normal, classes[1..], hullMass);
      assert forall k :: k in classes[1..] ==> k in classes;
      if c == 0 && forall k :: k in classes[1..] ==> !Fits(normal, k, hullMass) then
        assert forall k :: k in classes ==> k == classes[0] || k in classes[1..];
        c
      else
        var i :| 0 <= i < |classes[1..]| && c == classes[1..][i] && Fits(normal, c, hullMass) &&
          forall j :: 0 <= j < i ==> !Fits(normal, classes[1..][j], hullMass);
        assert c == classes[i + 1];
        assert forall j :: 0 <= j < i + 1 ==> !Fits(normal, classes[j], hullMass) by {
          forall j | 0 <= j < i + 1 ensures !Fits(normal, classes[j], hullMass) {
            if j > 0 {
              assert classes[j] == classes[1..][j - 1];
            }
          }
        }
        c
  }

  /** `get_compatible_shield_generator_classes`: the smallest class whose
      generator takes the ship's hull and the class of the ship's first
      internal slot for its highest class, when the one is not above the
      other; (0, 0) otherwise. */
  function CompatibleClasses(g: map<string, Items<seq<ShieldGenerator>>>, ship: StarShip): (int, int)
    requires GeneratorsLoaded(g)
  {
    var normal := g[TypeNormal];
    SortedClasses(normal);
    var minClass := MinClass(normal, SortInts(Keys(normal)), ship.hullMass);
    var maxFreeSlot := GetAvailableInternalSlot(ship, ship.highestInternal, false).1;
    if minClass != 0 && minClass <= maxFreeSlot then (minClass, maxFreeSlot) else (0, 0)
  }

  lemma SortedClasses(normal: Items<seq<ShieldGenerator>>)
    ensures forall k :: k in SortInts(Keys(normal)) <==> HasKey(normal, k)
    ensures Ascending(SortInts(Keys(normal)))
  {
    SortIntsAscending(Keys(normal));
    forall k ensures k in SortInts(Keys(normal)) <==> k in Keys(normal) {
      assert k in SortInts(Keys(normal)) <==> k in multiset(SortInts(Keys(normal)));
    }
  }

  /** In ascending order the first class that fits is the least. */
  lemma MinClassAscending(normal: Items<seq<ShieldGenerator>>, classes: seq<int>, hullMass: real)
    requires NonEmptyClasses(normal) && Ascending(classes) && forall k :: k in classes ==> HasKey(normal, k)
    ensures var c := MinClass(normal, classes, hullMass);
      (c == 0 && forall k :: k in classes ==> !Fits(normal, k, hullMass)) ||
      (c in classes && Fits(normal, c, hullMass) && forall k :: k in classes && k < c ==> !Fits(normal, k, hullMass))
  {
    var c := MinClass(normal, classes, hullMass);
    if !(c == 0 && forall k :: k in classes ==> !Fits(normal, k, hullMass)) {
      var i :| 0 <= i < |classes| && c == classes[i] && Fits(normal, c, hullMass) &&
        forall j :: 0 <= j < i ==> !Fits(normal, classes[j], hullMass);
      forall k | k in classes && k < c ensures !Fits(normal, k, hullMass) {
        var j :| 0 <= j < |classes| && classes[j] == k;
      }
    }
  }

  /** Over the table's keys: the least class that fits, or 0 when none
      does. */
  lemma MinClassLeast(normal: Items<seq<ShieldGenerator>>, hullMass: real)
    requires NonEmptyClasses(normal)
    ensures forall k :: k in SortInts(Keys(normal)) ==> HasKey(normal, k)
    ensures var c := MinClass(normal, SortInts(Keys(normal)), hullMass);
      (c == 0 && forall k :: HasKey(normal, k) ==> !Fits(normal, k, hullMass)) || LeastFitting(normal, c, hullMass)
  {
    SortedClasses(normal);
    MinClassAscending(normal, SortInts(Keys(normal)), hullMass);
  }

  /** The classes found are the least class that fits and the class of the
      first internal slot for the ship's highest class; (0, 0) exactly when
      no class fits, or the least that does is 0 or above that slot's. */
  lemma CompatibleClassesMeaning(g: map<string, Items<seq<ShieldGenerator>>>, ship: StarShip)
    requires GeneratorsLoaded(g)
    ensures var normal := g[TypeNormal];
      var r := CompatibleClasses(g, ship);
      var top := GetAvailableInternalSlot(ship, ship.highestInternal, false).1;
      (r != (0, 0) ==> r.0 != 0 && r.0 <= r.1 && r.1 == top && LeastFitting(normal, r.0, ship.hullMass)) &&
      (r == (0, 0) <==>
        (forall k :: HasKey(normal, k) ==> !Fits(normal, k, ship.hullMass)) ||
        exists k :: LeastFitting(normal, k, ship.hullMass) && (k == 0 || k > top))
  {
    var normal := g[TypeNormal];
    MinClassLeast(normal, ship.hullMass);
    var r := CompatibleClasses(g, ship);
    var top := GetAvailableInternalSlot(ship, ship.highestInternal, false).1;
    var c := MinClass(normal, SortInts(Keys(normal)), ship.hullMass);
    if LeastFitting(normal, c, ship.hullMass) {
      forall k | LeastFitting(normal, k, ship.hullMass) ensures k == c {
      }
    }
  }

  /** The class `set_loadouts_for_class` settles on. */
  function ChosenClass(requested: int, compatible: (int, int)): int
  {
    if compatible.0 <= requested <= compatible.1 then requested else compatible.1
  }

  /** A class is chosen only when the ship can carry a generator, and it is
      within the compatible range: the requested one when that is in it,
      the largest otherwise. */
  lemma ChosenClassInRange(g: map<string, Items<seq<ShieldGenerator>>>, ship: StarShip, requested: int)
    requires GeneratorsLoaded(g)
    ensures var r := CompatibleClasses(g, ship);
      var c := ChosenClass(requested, r);
      (r == (0, 0) ==> c == 0) &&
      (r != (0, 0) ==> r.0 <= c <= r.1 && (c == requested <==> r.0 <= requested <= r.1 || requested == r.1))
  {
    CompatibleClassesMeaning(g, ship);
  }

  // ---------------------------------------------------------------------
  // Loadouts of a class
  // ---------------------------------------------------------------------

  /** The generators `__create_loadouts` tests for a class: bi-weave, then
      normal, then prismatic when asked; a missing table or class is the
      KeyError of the lookup. */
  function GeneratorsOfClass(g: map<string, Items<seq<ShieldGenerator>>>, cls: int, prismatics: bool)
    : Result<seq<ShieldGenerator>, TesterError>
  {
    if TypeBiweave !in g || !HasKey(g[TypeBiweave], cls) || TypeNormal !in g || !HasKey(g[TypeNormal], cls) then
      Err(MissingKey)
    else if prismatics && (TypePrismatic !in g || !HasKey(g[TypePrismatic], cls)) then
      Err(MissingKey)
    else
      Ok(Collections.Get(g[TypeBiweave], cls) + Collections.Get(g[TypeNormal], cls) + (if prismatics then Collections.Get(g[TypePrismatic], cls) else []))
  }

  /** One unboosted loadout per generator, in order. */
  function LoadoutsFor(gens: seq<ShieldGenerator>, ship: StarShip, m: CurveMath): (ls: seq<LoadOut>)
    requires forall i :: 0 <= i < |gens| ==> CurveDefined(gens[i], ship.hullMass, m)
    ensures |ls| == |gens|
    ensures forall i :: 0 <= i < |gens| ==> ls[i] == NewLoadOut(gens[i], Some(ship), m)
  {
    if gens == [] then [] else LoadoutsFor(gens[..|gens| - 1], ship, m) + [NewLoadOut(gens[|gens| - 1], Some(ship), m)]
  }

  lemma LoadoutsForSnoc(gens: seq<ShieldGenerator>, i: nat, ship: StarShip, m: CurveMath)
    requires i < |gens| && forall j :: 0 <= j <= i ==> CurveDefined(gens[j], ship.hullMass, m)
    ensures LoadoutsFor(gens[..i + 1], ship, m) == LoadoutsFor(gens[..i], ship, m) + [NewLoadOut(gens[i], Some(ship), m)]
  {
    assert gens[..i + 1][..i] == gens[..i];
  }

  /** The position of the first generator whose curve raises on the ship,
      or |gens|. */
  function FirstUndefined(gens: seq<ShieldGenerator>, ship: StarShip, m: CurveMath): (k: nat)
    ensures k <= |gens|
    ensures forall j :: 0 <= j < k ==> CurveDefined(gens[j], ship.hullMass, m)
    ensures k < |gens| ==> !CurveDefined(gens[k], ship.hullMass, m)
  {
    if gens == [] then 0
    else if !CurveDefined(gens[0], ship.hullMass, m) then 0
    else 1 + FirstUndefined(gens[1..], ship, m)
  }

  /** One unboosted loadout per generator, or the exception of the first
      generator whose curve raises. */
  function LoadoutsOrError(gens: seq<ShieldGenerator>, ship: StarShip, m: CurveMath): Result<seq<LoadOut>, TesterError>
  {
    var k := FirstUndefined(gens, ship, m);
    if k == |gens| then Ok(LoadoutsFor(gens, ship, m))
    else Err(CurveUndefined(CurveFault(gens[k], ship.hullMass, m).value))
  }

  /** The loop of `__create_loadouts`. */
  method NewLoadouts(gens: seq<ShieldGenerator>, ship: StarShip, m: CurveMath) returns (r: Result<seq<LoadOut>, TesterError>)
    ensures r == LoadoutsOrError(gens, ship, m)
  {
    var loadouts: seq<LoadOut> := [];
    for i := 0 to |gens|
      invariant forall j :: 0 <= j < i ==> CurveDefined(gens[j], ship.hullMass, m)
      invariant loadouts == LoadoutsFor(gens[..i], ship, m)
    {
      var sg := gens[i];
      var fault := CurveFault(sg, ship.hullMass, m);
      if fault.Some? {
        assert FirstUndefined(gens, ship, m) == i;
        return Err(CurveUndefined(fault.value));
      }
      LoadoutsForSnoc(gens, i, ship, m);
      loadouts := loadouts + [NewLoadOut(sg, Some(ship), m)];
    }
    assert gens[..|gens|] == gens;
    r := Ok(loadouts);
  }

  /** What `__create_loadouts` returns, or the exception it raises. */
  function LoadoutsOfClass(g: map<string, Items<seq<ShieldGenerator>>>, ship: StarShip, moduleClass: int,
                           prismatics: bool, m: CurveMath): Result<seq<LoadOut>, TesterError>
  {
    var cls := if moduleClass == 0 then ship.highestInternal else moduleClass;
    match GeneratorsOfClass(g, cls, prismatics)
    case Err(e) => Err(e)
    case Ok(gens) => LoadoutsOrError(gens, ship, m)
  }

  /** Each loadout is the ship with the generator at the same position,
      unboosted, at the strength the curve gives; the error is the exception
      of the first generator whose curve raises, a division by zero or a
      math domain error. */
  lemma LoadoutsOrErrorMeaning(gens: seq<ShieldGenerator>, ship: StarShip, m: CurveMath)
    ensures var r := LoadoutsOrError(gens, ship, m);
      (r.Err? <==> exists i :: 0 <= i < |gens| && CurveFault(gens[i], ship.hullMass, m).Some?) &&
      (r.Err? ==> r.error.CurveUndefined? &&
                  exists i :: 0 <= i < |gens| && CurveFault(gens[i], ship.hullMass, m) == Some(r.error.fault) &&
                    forall j :: 0 <= j < i ==> CurveFault(gens[j], ship.hullMass, m).None?) &&
      (r.Ok? ==> (|r.value| == |gens| &&
        forall i :: 0 <= i < |gens| ==>
          r.value[i].shieldGenerator == gens[i] && r.value[i].ship == Some(ship) && r.value[i].boosters.None? &&
          r.value[i].shieldStrength == ShieldStrength(gens[i], Some(ship), m)))
  {
    var k := FirstUndefined(gens, ship, m);
    if k < |gens| {
      assert CurveFault(gens[k], ship.hullMass, m).Some?;
    }
  }

  /** The loadouts of a class cover its bi-weave, normal and (when asked)
      prismatic generators in that order; the lookup fails exactly when a
      table lacks the class, and the curve exactly when one of those
      generators has no defined curve. */
  lemma LoadoutsOfClassMeaning(g: map<string, Items<seq<ShieldGenerator>>>, ship: StarShip, moduleClass: int,
                               prismatics: bool, m: CurveMath)
    ensures var cls := if moduleClass == 0 then ship.highestInternal else moduleClass;
      var r := LoadoutsOfClass(g, ship, moduleClass, prismatics, m);
      var present := TypeBiweave in g && HasKey(g[TypeBiweave], cls) && TypeNormal in g && HasKey(g[TypeNormal], cls) &&
        (prismatics ==> TypePrismatic in g && HasKey(g[TypePrismatic], cls));
      (r == Err(MissingKey) <==> !present) &&
      (present ==>
        var gens := Collections.Get(g[TypeBiweave], cls) + Collections.Get(g[TypeNormal], cls) +
          (if prismatics then Collections.Get(g[TypePrismatic], cls) else []);
        r == LoadoutsOrError(gens, ship, m))
  {
  }

  // ---------------------------------------------------------------------
  // Importing a loadout event
  // ---------------------------------------------------------------------

  /** The loaded ships have pairwise different names, as the values of a
      dict keyed by name do. */
  predicate DistinctNames(ships: seq<StarShip>)
  {
    forall i, j :: 0 <= i < j < |ships| ==> ships[i].name != ships[j].name
  }

  /** The position of the first ship whose symbol matches, ignoring case,
      or |ships|. */
  function FindShip(ships: seq<StarShip>, symbol: string): (k: nat)
    ensures k <= |ships|
    ensures forall j :: 0 <= j < k ==> Lower(ships[j].symbol) != Lower(symbol)
    ensures k < |ships| ==> Lower(ships[k].symbol) == Lower(symbol)
  {
    if ships == [] then 0
    else if Lower(ships[0].symbol) == Lower(symbol) then 0
    else 1 + FindShip(ships[1..], symbol)
  }

  /** The copy renamed after the event: "name (ident)", the event's name
      and ident written into the template, its modules copied in, and no
      highest internal class yet. */
  function Renamed(ship: StarShip, event: map<string, Json>): StarShip
    requires WellFormedEvent(event)
  {
    var name := if "ShipName" in event then event["ShipName"].s else ship.name;
    var ident := if "ShipIdent" in event then event["ShipIdent"].s else "Imported";
    var t1 := if "ShipName" in event then ship.loadoutTemplate["ShipName" := event["ShipName"]] else ship.loadoutTemplate;
    var t2 := if "ShipIdent" in event then t1["ShipIdent" := event["ShipIdent"]] else t1;
    ship.(customName := name + " (" + ident + ")", loadoutTemplate := t2["Modules" := event["Modules"]], highestInternal := 0)
  }

  /** The copy after the loops: the fitted slots, the free utility slots
      sorted, and the kept modules. */
  function Refitted(ship: StarShip, f: Fitting, kept: seq<Json>): StarShip
  {
    ship.(utilitySlotsFree := SortInts(f.free), highestInternal := f.highest, internalSlotLayout := f.layout,
          loadoutTemplate := ship.loadoutTemplate["Modules" := Arr(kept)])
  }

  /** What `import_loadout` does: no ship (Ok(None)) when no loaded ship
      has the symbol or the refitted ship has no compatible generator
      class, an error when a module cannot be read, the refitted ship
      otherwise. */
  function ImportSpec(ships: seq<StarShip>, g: map<string, Items<seq<ShieldGenerator>>>, event: map<string, Json>)
    : Result<Option<StarShip>, TesterError>
    requires WellFormedEvent(event) && GeneratorsLoaded(g)
  {
    var k := FindShip(ships, event["Ship"].s);
    if k == |ships| then Ok(None)
    else
      var ship := Renamed(ships[k], event);
      var mods := event["Modules"].items;
      match Fit(Fitting(ship.utilitySlotsFree, ship.highestInternal, ship.internalSlotLayout, []), mods)
      case Err(e) => Err(Unfitted(e))
      case Ok(f) =>
        var s := Refitted(ship, f, Kept(mods));
        var c := CompatibleClasses(g, s);
        if c.0 == 0 || c.1 == 0 then Ok(None) else Ok(Some(s))
  }

  /** The import fails exactly when a matching ship exists and one of its
      modules names a slot without a digit or a utility slot that is not
      free; it imports nothing when no ship matches. */
  lemma ImportOutcomes(ships: seq<StarShip>, g: map<string, Items<seq<ShieldGenerator>>>, event: map<string, Json>)
    requires WellFormedEvent(event) && GeneratorsLoaded(g)
    ensures var r := ImportSpec(ships, g, event);
      var k := FindShip(ships, event["Ship"].s);
      var mods := event["Modules"].items;
      (r.Err? <==> (k < |ships| &&
        !((forall i :: 0 <= i < |mods| ==> DigitsPresent(mods[i])) &&
          multiset(Occupied(mods)) <= multiset(ships[k].utilitySlotsFree)))) &&
      ((forall j :: 0 <= j < |ships| ==> Lower(ships[j].symbol) != Lower(event["Ship"].s)) ==> r == Ok(None))
  {
    var k := FindShip(ships, event["Ship"].s);
    if k < |ships| {
      var ship := Renamed(ships[k], event);
      FitSucceeds(Fitting(ship.utilitySlotsFree, ship.highestInternal, ship.internalSlotLayout, []), event["Modules"].items);
    }
  }

  /** An imported ship is the matching loaded ship under its new name,
      with the event's modules less boosters and generators, and with
      generator classes it can carry. */
  lemma ImportedShipNamed(ships: seq<StarShip>, g: map<string, Items<seq<ShieldGenerator>>>, event: map<string, Json>)
    requires WellFormedEvent(event) && GeneratorsLoaded(g)
    requires ImportSpec(ships, g, event).Ok? && ImportSpec(ships, g, event).value.Some?
    ensures var s := ImportSpec(ships, g, event).value.value;
      var k := FindShip(ships, event["Ship"].s);
      k < |ships| && Lower(ships[k].symbol) == Lower(event["Ship"].s) &&
      s.name == ships[k].name && s.symbol == ships[k].symbol &&
      s.hullMass == ships[k].hullMass && s.baseShieldStrength == ships[k].baseShieldStrength &&
      s.customName == (if "ShipName" in event then event["ShipName"].s else ships[k].name) + " (" +
        (if "ShipIdent" in event then event["ShipIdent"].s else "Imported") + ")" &&
      s.loadoutTemplate["Modules"] == Arr(Kept(event["Modules"].items)) &&
      CompatibleClasses(g, s).0 != 0 && CompatibleClasses(g, s).1 != 0
  {
    var k := FindShip(ships, event["Ship"].s);
    var ship := Renamed(ships[k], event);
    var mods := event["Modules"].items;
    var f0 := Fitting(ship.utilitySlotsFree, ship.highestInternal, ship.internalSlotLayout, []);
    var s := Refitted(ship, Fit(f0, mods).value, Kept(mods));
    assert ImportSpec(ships, g, event) == Ok(Some(s));
  }

  /** An imported ship's free utility slots are the loaded ship's less
      those the event occupies, ascending; its layout loses exactly the
      internal slots the event fills; its highest internal class is the
      digit of the last generator's slot, or 0 without one. */
  lemma ImportedShipFitted(ships: seq<StarShip>, g: map<string, Items<seq<ShieldGenerator>>>, event: map<string, Json>)
    requires WellFormedEvent(event) && GeneratorsLoaded(g)
    requires ImportSpec(ships, g, event).Ok? && ImportSpec(ships, g, event).value.Some?
    ensures var s := ImportSpec(ships, g, event).value.value;
      var k := FindShip(ships, event["Ship"].s);
      var mods := event["Modules"].items;
      k < |ships| &&
      Ascending(s.utilitySlotsFree) &&
      multiset(s.utilitySlotsFree) == multiset(ships[k].utilitySlotsFree) - multiset(Occupied(mods)) &&
      (forall e :: e in s.internalSlotLayout <==> e in ships[k].internalSlotLayout && e.0 !in InternalSlots(mods)) &&
      ((forall i :: 0 <= i < |mods| ==> !IsGenerator(mods[i])) ==> s.highestInternal == 0) &&
      (forall i :: 0 <= i < |mods| && IsGenerator(mods[i]) && (forall j :: i < j < |mods| ==> !IsGenerator(mods[j])) ==>
        LastDigit(SlotOf(mods[i])) == Some(s.highestInternal))
  {
    var k := FindShip(ships, event["Ship"].s);
    var ship := Renamed(ships[k], event);
    var mods := event["Modules"].items;
    var f0 := Fitting(ship.utilitySlotsFree, ship.highestInternal, ship.internalSlotLayout, []);
    FitFree(f0, mods);
    FitLayout(f0, mods);
    FitHighest(f0, mods);
    SortIntsAscending(Fit(f0, mods).value.free);
  }
}
