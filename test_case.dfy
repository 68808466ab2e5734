/** TestCase.py: the setup of one search and the evaluator that finds the
    best loadout among a list of booster combinations; with the result
    record of TestResult.py. */
module TestCases {
  import opened Wrappers
  import opened StarShips
  import opened ShieldBoosterVariants
  import opened LoadOuts

  /** A result: the winning loadout with its boosters set, its survival time
      and net incoming dps (both negative when the ship does not die) and its
      shield hitpoints without shield cell banks and guardian reinforcements.
      The search starts from a result with no loadout and all values 0. */
  datatype TestResult = TestResult(
    loadout: Option<LoadOut>,
    survivalTime: real,
    incomingDps: real,
    totalHitpoints: real)

  /** The damage the ship faces and the hitpoints it adds to its shield. */
  datatype DamageProfile = DamageProfile(
    damageEffectiveness: real,
    explosiveDps: real,
    kineticDps: real,
    thermalDps: real,
    absoluteDps: real,
    scbHitpoints: real,
    guardianHitpoints: real)

  /** The setup of a search. The engine replaces `loadoutList` when it
      pre-filters, so the setup is an object. */
  class TestCase {
    var ship: StarShip
    var damageEffectiveness: real
    var explosiveDps: real
    var kineticDps: real
    var thermalDps: real
    var absoluteDps: real
    var scbHitpoints: real
    var guardianHitpoints: real
    var shieldBoosterVariants: Option<seq<ShieldBoosterVariant>>
    var loadoutList: Option<seq<LoadOut>>
    var numberOfBoostersToTest: int
    var usePrismatics: bool

    /** A fresh setup for a ship: no damage, no candidates, no boosters. */
    constructor (ship: StarShip)
      ensures this.ship == ship
      ensures Profile() == DamageProfile(0.0, 0.0, 0.0, 0.0, 0.0, 0.0, 0.0)
      ensures shieldBoosterVariants.None? && loadoutList.None?
      ensures numberOfBoostersToTest == 0 && usePrismatics
    {
      this.ship := ship;
      damageEffectiveness := 0.0;
      explosiveDps := 0.0;
      kineticDps := 0.0;
      thermalDps := 0.0;
      absoluteDps := 0.0;
      scbHitpoints := 0.0;
      guardianHitpoints := 0.0;
      shieldBoosterVariants := None;
      loadoutList := None;
      numberOfBoostersToTest := 0;
      usePrismatics := true;
    }

    function Profile(): DamageProfile
      reads this
    {
      DamageProfile(damageEffectiveness, explosiveDps, kineticDps, thermalDps, absoluteDps,
              scbHitpoints, guardianHitpoints)
    }
  }

  // ---------------------------------------------------------------------
  // One candidate: a loadout with one booster combination
  // ---------------------------------------------------------------------

  predicate ValidCombo(variants: seq<ShieldBoosterVariant>, combo: seq<nat>)
  {
    forall i :: 0 <= i < |combo| ==> combo[i] < |variants|
  }

  predicate ValidCombos(variants: seq<ShieldBoosterVariant>, combos: seq<seq<nat>>)
  {
    forall i :: 0 <= i < |combos| ==> ValidCombo(variants, combos[i])
  }

  /** `[variants[x] for x in combination]`. */
  function Boosters(variants: seq<ShieldBoosterVariant>, combo: seq<nat>): (bs: seq<ShieldBoosterVariant>)
    requires ValidCombo(variants, combo)
    ensures |bs| == |combo|
    ensures forall i :: 0 <= i < |combo| ==> bs[i] == variants[combo[i]]
  {
    seq(|combo|, i requires 0 <= i < |combo| => variants[combo[i]])
  }

  /** A loadout evaluated with a booster list: net incoming dps, shield
      hitpoints, and hitpoints including cell banks and reinforcements. */
  datatype Candidate = Candidate(loadout: LoadOut, boosters: seq<ShieldBoosterVariant>, dps: real, hp: real, total: real)

  /** The evaluator's own inline copy of the loadout formulas. */
  function Assess(p: DamageProfile, boosters: seq<ShieldBoosterVariant>, b: Bonuses, l: LoadOut): Candidate
  {
    var sg := l.shieldGenerator;
    var expRes := (1.0 - sg.explres) * b.exp;
    var kinRes := (1.0 - sg.kinres) * b.kin;
    var thermRes := (1.0 - sg.thermres) * b.therm;
    var hp := l.shieldStrength * b.hitpoints;
    var regenRate := sg.regen * (1.0 - p.damageEffectiveness);
    var dps := p.damageEffectiveness * (p.explosiveDps * expRes + p.kineticDps * kinRes
                                        + p.thermalDps * thermRes + p.absoluteDps) - regenRate;
    Candidate(l, boosters, dps, hp, hp + p.scbHitpoints + p.guardianHitpoints)
  }

  /** The inline copy agrees with the loadout's own totals once the boosters
      are fitted: resistances and hitpoints are those of `get_total_values`. */
  lemma AssessAgreesWithLoadOut(p: DamageProfile, boosters: seq<ShieldBoosterVariant>, l: LoadOut)
    ensures var t := GetTotalValues(l.(boosters := Some(boosters)));
      var c := Assess(p, boosters, BoosterBonuses(boosters), l);
      c.hp == t.hp && c.total == t.hp + p.scbHitpoints + p.guardianHitpoints &&
      c.dps == p.damageEffectiveness * (p.explosiveDps * t.expRes + p.kineticDps * t.kinRes
                                        + p.thermalDps * t.thermRes + p.absoluteDps)
               - l.shieldGenerator.regen * (1.0 - p.damageEffectiveness)
  {
    TotalValuesOfBoosters(l.(boosters := Some(boosters)));
  }

  /** The loadouts of the list, each with one booster list. */
  function Row(p: DamageProfile, boosters: seq<ShieldBoosterVariant>, b: Bonuses, loadouts: seq<LoadOut>): (r: seq<Candidate>)
    ensures |r| == |loadouts|
    ensures forall j :: 0 <= j < |loadouts| ==> r[j] == Assess(p, boosters, b, loadouts[j])
  {
    seq(|loadouts|, j requires 0 <= j < |loadouts| => Assess(p, boosters, b, loadouts[j]))
  }

  function RowOf(p: DamageProfile, variants: seq<ShieldBoosterVariant>, loadouts: seq<LoadOut>, combo: seq<nat>): seq<Candidate>
    requires ValidCombo(variants, combo)
  {
    var bs := Boosters(variants, combo);
    Row(p, bs, BoosterBonuses(bs), loadouts)
  }

  /** Every candidate in the order of the nested loop: combination-major,
      then loadout. */
  function Candidates(p: DamageProfile, variants: seq<ShieldBoosterVariant>, loadouts: seq<LoadOut>,
                      combos: seq<seq<nat>>): seq<Candidate>
    requires ValidCombos(variants, combos)
  {
    if combos == [] then []
    else Candidates(p, variants, loadouts, combos[..|combos| - 1])
         + RowOf(p, variants, loadouts, combos[|combos| - 1])
  }

  lemma ValidCombosAppend(variants: seq<ShieldBoosterVariant>, xs: seq<seq<nat>>, ys: seq<seq<nat>>)
    requires ValidCombos(variants, xs) && ValidCombos(variants, ys)
    ensures ValidCombos(variants, xs + ys)
  {
    forall i | 0 <= i < |xs + ys| ensures ValidCombo(variants, (xs + ys)[i]) {
      if i >= |xs| {
        assert (xs + ys)[i] == ys[i - |xs|];
      }
    }
  }

  /** The candidates of two lists of combinations, one after the other. */
  lemma {:induction false} CandidatesAppend(p: DamageProfile, variants: seq<ShieldBoosterVariant>, loadouts: seq<LoadOut>,
                                            xs: seq<seq<nat>>, ys: seq<seq<nat>>)
    requires ValidCombos(variants, xs) && ValidCombos(variants, ys)
    ensures ValidCombos(variants, xs + ys)
    ensures Candidates(p, variants, loadouts, xs + ys)
         == Candidates(p, variants, loadouts, xs) + Candidates(p, variants, loadouts, ys)
    decreases |ys|
  {
    ValidCombosAppend(variants, xs, ys);
    if ys == [] {
      assert xs + ys == xs;
    } else {
      var w := xs + ys;
      var ys0 := ys[..|ys| - 1];
      assert w[..|w| - 1] == xs + ys0;
      assert w[|w| - 1] == ys[|ys| - 1];
      CandidatesAppend(p, variants, loadouts, xs, ys0);
      var a, b, c := Candidates(p, variants, loadouts, xs), Candidates(p, variants, loadouts, ys0),
                     RowOf(p, variants, loadouts, ys[|ys| - 1]);
      assert Candidates(p, variants, loadouts, w) == (a + b) + c;
      assert Candidates(p, variants, loadouts, ys) == b + c;
      assert (a + b) + c == a + (b + c);
    }
  }

  /** One more combination appends its row of candidates. */
  lemma CandidatesSnoc(p: DamageProfile, variants: seq<ShieldBoosterVariant>, loadouts: seq<LoadOut>,
                       combos: seq<seq<nat>>, i: nat)
    requires ValidCombos(variants, combos) && i < |combos|
    ensures ValidCombos(variants, combos[..i]) && ValidCombos(variants, combos[..i + 1])
    ensures Candidates(p, variants, loadouts, combos[..i + 1])
         == Candidates(p, variants, loadouts, combos[..i]) + RowOf(p, variants, loadouts, combos[i])
  {
    assert combos[..i + 1][..i] == combos[..i];
  }

  /** There is one candidate per combination and loadout. */
  lemma {:induction false} CandidatesLength(p: DamageProfile, variants: seq<ShieldBoosterVariant>, loadouts: seq<LoadOut>,
                                            combos: seq<seq<nat>>)
    requires ValidCombos(variants, combos)
    ensures |Candidates(p, variants, loadouts, combos)| == |combos| * |loadouts|
  {
    if combos != [] {
      CandidatesLength(p, variants, loadouts, combos[..|combos| - 1]);
      assert |combos| * |loadouts| == (|combos| - 1) * |loadouts| + |loadouts|;
    }
  }

  /** Every candidate is a loadout of the list fitted with the boosters of one
      of the combinations. */
  lemma {:induction false} CandidateOrigin(p: DamageProfile, variants: seq<ShieldBoosterVariant>, loadouts: seq<LoadOut>,
                                           combos: seq<seq<nat>>, c: Candidate)
    requires ValidCombos(variants, combos)
    requires c in Candidates(p, variants, loadouts, combos)
    ensures exists i, j :: (0 <= i < |combos| && 0 <= j < |loadouts| &&
      c.boosters == Boosters(variants, combos[i]) && c.loadout == loadouts[j] &&
      c == Assess(p, Boosters(variants, combos[i]), BoosterBonuses(Boosters(variants, combos[i])), loadouts[j]))
  {
    var n := |combos|;
    var init := combos[..n - 1];
    if c in Candidates(p, variants, loadouts, init) {
      CandidateOrigin(p, variants, loadouts, init, c);
      var i, j :| 0 <= i < |init| && 0 <= j < |loadouts| &&
        c.boosters == Boosters(variants, init[i]) && c.loadout == loadouts[j] &&
        c == Assess(p, Boosters(variants, init[i]), BoosterBonuses(Boosters(variants, init[i])), loadouts[j]);
      assert init[i] == combos[i];
    } else {
      var row := RowOf(p, variants, loadouts, combos[n - 1]);
      var j :| 0 <= j < |row| && row[j] == c;
      assert c.boosters == Boosters(variants, combos[n - 1]) && c.loadout == loadouts[j];
    }
  }

  // ---------------------------------------------------------------------
  // The running best of the nested loop
  // ---------------------------------------------------------------------

  /** best_survival_time, lowest_dps, best_loadout,
      best_shield_booster_loadout and best_hitpoints. */
  datatype Best = Best(
    survivalTime: real,
    lowestDps: real,
    loadout: Option<LoadOut>,
    boosters: Option<seq<ShieldBoosterVariant>>,
    hitpoints: real)

  /** The start value of lowest_dps: above any net dps of a ship that never
      dies, so that the first such ship is always taken. */
  const NoSurvivorDps: real := 10000.0

  const Initial: Best := Best(0.0, NoSurvivorDps, None, None, 0.0)

  /** The evaluator's failures: a net dps of exactly 0 is divided by, and
      without any accepted candidate the integer placeholder for the best
      loadout cannot take boosters. */
  datatype EvalError = ZeroDivision | NoLoadoutAccepted

  /** One step of the inner loop. A ship that dies is considered only while
      no surviving ship is held, and taken when it lasts strictly longer; a
      ship that never dies is taken when its net dps is strictly lower, or
      close to the held one with strictly more hitpoints. `close` stands for
      `math.isclose(a, b, rel_tol=1e-8)`. */
  function Consider(close: (real, real) -> bool, b: Best, c: Candidate): Best
    requires c.dps != 0.0
  {
    var survivalTime := c.total / c.dps;
    if c.dps > 0.0 && b.survivalTime >= 0.0 then
      if survivalTime > b.survivalTime then
        b.(survivalTime := survivalTime, loadout := Some(c.loadout), boosters := Some(c.boosters), hitpoints := c.hp)
      else b
    else if c.dps <= 0.0 then
      if b.lowestDps > c.dps || (close(b.lowestDps, c.dps) && b.hitpoints < c.hp) then
        Best(survivalTime, c.dps, Some(c.loadout), Some(c.boosters), c.hp)
      else b
    else b
  }

  /** The loop over a list of candidates from a running best, stopping with
      an error at the first net dps of 0. */
  function Scan(close: (real, real) -> bool, b: Best, cs: seq<Candidate>): Result<Best, EvalError>
  {
    if cs == [] then Ok(b)
    else
      match Scan(close, b, cs[..|cs| - 1])
      case Err(e) => Err(e)
      case Ok(b1) =>
        var c := cs[|cs| - 1];
        if c.dps == 0.0 then Err(ZeroDivision) else Ok(Consider(close, b1, c))
  }

  lemma ScanSnoc(close: (real, real) -> bool, b: Best, xs: seq<Candidate>, c: Candidate)
    requires Scan(close, b, xs).Ok? && c.dps != 0.0
    ensures Scan(close, b, xs + [c]) == Ok(Consider(close, Scan(close, b, xs).value, c))
  {
    assert (xs + [c])[..|xs|] == xs;
  }

  /** Scanning two lists one after the other is scanning their
      concatenation. */
  lemma {:induction false} ScanAppend(close: (real, real) -> bool, b: Best, xs: seq<Candidate>, ys: seq<Candidate>)
    ensures Scan(close, b, xs + ys) ==
      match Scan(close, b, xs)
      case Err(e) => Err(e)
      case Ok(b1) => Scan(close, b1, ys)
    decreases |ys|
  {
    if ys == [] {
      assert xs + ys == xs;
    } else {
      var w := xs + ys;
      var ys0 := ys[..|ys| - 1];
      assert w[..|w| - 1] == xs + ys0;
      assert w[|w| - 1] == ys[|ys| - 1];
      ScanAppend(close, b, xs, ys0);
    }
  }

  /** The loop fails exactly when some candidate has a net dps of 0. */
  lemma {:induction false} ScanFails(close: (real, real) -> bool, b: Best, cs: seq<Candidate>)
    ensures Scan(close, b, cs).Err? <==> exists i :: 0 <= i < |cs| && cs[i].dps == 0.0
    ensures Scan(close, b, cs).Err? ==> Scan(close, b, cs) == Err(ZeroDivision)
  {
    if cs != [] {
      var init := cs[..|cs| - 1];
      ScanFails(close, b, init);
      assert forall i :: 0 <= i < |init| ==> init[i] == cs[i];
      if (exists i :: 0 <= i < |cs| && cs[i].dps == 0.0) && Scan(close, b, init).Ok? {
        var i :| 0 <= i < |cs| && cs[i].dps == 0.0;
        assert i == |cs| - 1;
      }
    }
  }

  /** What the evaluator returns: a copy of the winning loadout with the
      winning boosters set, and the values held for it. */
  function Finish(r: Result<Best, EvalError>): Result<TestResult, EvalError>
  {
    match r
    case Err(e) => Err(e)
    case Ok(b) =>
      if b.loadout.None? then Err(NoLoadoutAccepted)
      else Ok(TestResult(Some(b.loadout.value.(boosters := b.boosters)), b.survivalTime, b.lowestDps, b.hitpoints))
  }

  /** The result of one call of the evaluator. */
  function Evaluation(close: (real, real) -> bool, p: DamageProfile, variants: seq<ShieldBoosterVariant>,
                      loadouts: seq<LoadOut>, combos: seq<seq<nat>>): Result<TestResult, EvalError>
    requires ValidCombos(variants, combos)
  {
    Finish(Scan(close, Initial, Candidates(p, variants, loadouts, combos)))
  }

  /** The inner loop of `TestCase.test_case`: every loadout of the list,
      with one set of boosters, against the running best. */
  method ConsiderLoadouts(close: (real, real) -> bool, p: DamageProfile, boosters: seq<ShieldBoosterVariant>,
                          bonuses: Bonuses, loadouts: seq<LoadOut>, best: Best)
    returns (r: Result<Best, EvalError>)
    ensures r == Scan(close, best, Row(p, boosters, bonuses, loadouts))
  {
    var bestSurvivalTime := best.survivalTime;
    var lowestDps := best.lowestDps;
    var bestLoadout := best.loadout;
    var bestShieldBoosterLoadout := best.boosters;
    var bestHitpoints := best.hitpoints;
    var j := 0;
    ghost var seen: seq<Candidate> := [];
    assert loadouts[..0] == [];
    while j < |loadouts|
      invariant 0 <= j <= |loadouts|
      invariant seen == Row(p, boosters, bonuses, loadouts[..j])
      invariant Scan(close, best, seen)
             == Ok(Best(bestSurvivalTime, lowestDps, bestLoadout, bestShieldBoosterLoadout, bestHitpoints))
    {
      var loadout := loadouts[j];
      var c := Assess(p, boosters, bonuses, loadout);
      assert loadouts[..j + 1][..j] == loadouts[..j];
      assert Row(p, boosters, bonuses, loadouts[..j + 1]) == seen + [c];
      if c.dps == 0.0 {
        RowFails(close, best, p, boosters, bonuses, loadouts, j);
        return Err(ZeroDivision);
      }
      ghost var next := Consider(close, Best(bestSurvivalTime, lowestDps, bestLoadout, bestShieldBoosterLoadout, bestHitpoints), c);
      var survivalTime := c.total / c.dps;
      if c.dps > 0.0 && bestSurvivalTime >= 0.0 {
        if survivalTime > bestSurvivalTime {
          bestLoadout := Some(loadout);
          bestShieldBoosterLoadout := Some(boosters);
          bestSurvivalTime := survivalTime;
          bestHitpoints := c.hp;
        }
      } else if c.dps <= 0.0 {
        if lowestDps > c.dps || (close(lowestDps, c.dps) && bestHitpoints < c.hp) {
          bestLoadout := Some(loadout);
          bestShieldBoosterLoadout := Some(boosters);
          bestSurvivalTime := survivalTime;
          lowestDps := c.dps;
          bestHitpoints := c.hp;
        }
      }
      assert Best(bestSurvivalTime, lowestDps, bestLoadout, bestShieldBoosterLoadout, bestHitpoints) == next;
      ScanSnoc(close, best, seen, c);
      seen := seen + [c];
      j := j + 1;
    }
    assert loadouts[..j] == loadouts;
    r := Ok(Best(bestSurvivalTime, lowestDps, bestLoadout, bestShieldBoosterLoadout, bestHitpoints));
  }

  /** A net dps of 0 at loadout j ends the inner loop with the division
      error, whatever comes after it. */
  lemma RowFails(close: (real, real) -> bool, best: Best, p: DamageProfile, boosters: seq<ShieldBoosterVariant>,
                 bonuses: Bonuses, loadouts: seq<LoadOut>, j: nat)
    requires j < |loadouts| && Assess(p, boosters, bonuses, loadouts[j]).dps == 0.0
    ensures Scan(close, best, Row(p, boosters, bonuses, loadouts)) == Err(ZeroDivision)
  {
    var row := Row(p, boosters, bonuses, loadouts);
    ScanFails(close, best, row);
    assert row[j].dps == 0.0;
  }

  /** `TestCase.test_case`: for every combination, the booster bonuses once,
      then every loadout of the list against the running best. */
  method EvaluateCombinations(testCase: TestCase, boosterCombinations: seq<seq<nat>>, close: (real, real) -> bool)
    returns (r: Result<TestResult, EvalError>)
    requires testCase.shieldBoosterVariants.Some? && testCase.loadoutList.Some?
    requires ValidCombos(testCase.shieldBoosterVariants.value, boosterCombinations)
    ensures r == Evaluation(close, testCase.Profile(), testCase.shieldBoosterVariants.value,
                            testCase.loadoutList.value, boosterCombinations)
  {
    var best := Initial;
    var p := testCase.Profile();
    var variants := testCase.shieldBoosterVariants.value;
    var loadouts := testCase.loadoutList.value;

    var i := 0;
    while i < |boosterCombinations|
      invariant 0 <= i <= |boosterCombinations|
      invariant Scan(close, Initial, Candidates(p, variants, loadouts, boosterCombinations[..i])) == Ok(best)
    {
      var combination := boosterCombinations[i];
      var boosters := Boosters(variants, combination);
      var bonuses := CalculateBoosterBonuses(boosters, None);
      ghost var done := Candidates(p, variants, loadouts, boosterCombinations[..i]);
      CandidatesSnoc(p, variants, loadouts, boosterCombinations, i);
      ScanAppend(close, Initial, done, Row(p, boosters, bonuses, loadouts));
      var row := ConsiderLoadouts(close, p, boosters, bonuses, loadouts, best);
      if row.Err? {
        EvaluationStops(close, p, variants, loadouts, boosterCombinations, i);
        return Err(row.error);
      }
      best := row.value;
      i := i + 1;
    }
    assert boosterCombinations[..i] == boosterCombinations;
    if best.loadout.None? {
      return Err(NoLoadoutAccepted);
    }
    var winner := best.loadout.value.(boosters := best.boosters);
    r := Ok(TestResult(Some(winner), best.survivalTime, best.lowestDps, best.hitpoints));
  }

  /** Once the loop has failed within the first i + 1 combinations, the
      rest of them does not change the outcome. */
  lemma EvaluationStops(close: (real, real) -> bool, p: DamageProfile, variants: seq<ShieldBoosterVariant>,
                        loadouts: seq<LoadOut>, combos: seq<seq<nat>>, i: nat)
    requires ValidCombos(variants, combos) && i < |combos|
    requires Scan(close, Initial, Candidates(p, variants, loadouts, combos[..i + 1])).Err?
    ensures Evaluation(close, p, variants, loadouts, combos)
         == Err(Scan(close, Initial, Candidates(p, variants, loadouts, combos[..i + 1])).error)
  {
    assert combos == combos[..i + 1] + combos[i + 1..];
    CandidatesAppend(p, variants, loadouts, combos[..i + 1], combos[i + 1..]);
    ScanAppend(close, Initial, Candidates(p, variants, loadouts, combos[..i + 1]),
               Candidates(p, variants, loadouts, combos[i + 1..]));
  }

  /** A net dps of 0 at combination i and loadout j ends the whole evaluation
      with the division error. */
  lemma EvaluationFails(close: (real, real) -> bool, p: DamageProfile, variants: seq<ShieldBoosterVariant>,
                        loadouts: seq<LoadOut>, combos: seq<seq<nat>>, i: nat, j: nat)
    requires ValidCombos(variants, combos) && i < |combos| && j < |loadouts|
    requires RowOf(p, variants, loadouts, combos[i])[j].dps == 0.0
    ensures Evaluation(close, p, variants, loadouts, combos) == Err(ZeroDivision)
  {
    var all := Candidates(p, variants, loadouts, combos);
    var pre := Candidates(p, variants, loadouts, combos[..i]);
    var row := RowOf(p, variants, loadouts, combos[i]);
    assert combos == combos[..i + 1] + combos[i + 1..];
    assert combos[..i + 1][..i] == combos[..i];
    CandidatesAppend(p, variants, loadouts, combos[..i + 1], combos[i + 1..]);
    assert Candidates(p, variants, loadouts, combos[..i + 1]) == pre + row;
    IndexMiddle(pre, row, Candidates(p, variants, loadouts, combos[i + 1..]), j);
    assert all[|pre| + j].dps == 0.0;
    ScanFails(close, Initial, all);
  }

  lemma IndexMiddle<T>(pre: seq<T>, row: seq<T>, post: seq<T>, j: nat)
    requires j < |row|
    ensures (pre + row + post)[|pre| + j] == row[j]
  {
  }

  // ---------------------------------------------------------------------
  // What the running best ends up holding
  // ---------------------------------------------------------------------

  /** The candidates that the loop can rank: no net dps of 0, and a positive
      hitpoint total, so that the sign of the survival time is that of the
      net dps. */
  ghost predicate WellPosed(cs: seq<Candidate>)
  {
    forall i :: 0 <= i < |cs| ==> cs[i].dps != 0.0 && cs[i].total > 0.0
  }

  /** A ship that never dies: healing meets the incoming damage. */
  predicate Survives(c: Candidate)
  {
    c.dps < 0.0
  }

  /** c ranks strictly above d: a ship that never dies above any ship that
      dies; among ships that never die the lower net dps, then the more
      hitpoints; among ships that die the longer survival time. */
  predicate Outranks(c: Candidate, d: Candidate)
    requires c.dps != 0.0 && d.dps != 0.0
  {
    if Survives(c) then !Survives(d) || c.dps < d.dps || (c.dps == d.dps && c.hp > d.hp)
    else !Survives(d) && c.total / c.dps > d.total / d.dps
  }

  /** Of two candidates the later one wins only if it ranks strictly higher. */
  function Pick(x: Candidate, y: Candidate): (z: Candidate)
    requires x.dps != 0.0 && y.dps != 0.0
    ensures z == x || z == y
  {
    if Outranks(y, x) then y else x
  }

  lemma PickAssociative(x: Candidate, y: Candidate, z: Candidate)
    requires x.dps != 0.0 && y.dps != 0.0 && z.dps != 0.0
    ensures Pick(Pick(x, y), z) == Pick(x, Pick(y, z))
  {
  }

  /** The earliest of the highest-ranked candidates. */
  function LeftMax(cs: seq<Candidate>): (m: Candidate)
    requires cs != [] && WellPosed(cs)
    ensures m in cs && m.dps != 0.0 && m.total > 0.0
  {
    if |cs| == 1 then cs[0]
    else
      var init := cs[..|cs| - 1];
      assert forall i :: 0 <= i < |init| ==> init[i] == cs[i];
      var m0 := LeftMax(init);
      assert m0 in cs;
      Pick(m0, cs[|cs| - 1])
  }

  /** Outranking is a strict weak order: if a ranks above b and c does not,
      then a ranks above c. */
  lemma OutranksNegativelyTransitive(a: Candidate, b: Candidate, c: Candidate)
    requires a.dps != 0.0 && b.dps != 0.0 && c.dps != 0.0
    requires Outranks(a, b) && !Outranks(c, b)
    ensures Outranks(a, c)
  {
  }

  /** LeftMax is what its name says: no candidate ranks above it, and it
      ranks strictly above every candidate before it, so that ties go to the
      earliest candidate; k is its position. */
  lemma {:induction false} LeftMaxIsEarliestBest(cs: seq<Candidate>) returns (k: nat)
    requires cs != [] && WellPosed(cs)
    ensures k < |cs| && cs[k] == LeftMax(cs)
    ensures forall i :: 0 <= i < |cs| ==> !Outranks(cs[i], cs[k])
    ensures forall i :: 0 <= i < k ==> Outranks(cs[k], cs[i])
  {
    if |cs| == 1 {
      k := 0;
      return;
    }
    var n := |cs| - 1;
    var init := cs[..n];
    assert forall i :: 0 <= i < n ==> init[i] == cs[i];
    var k0 := LeftMaxIsEarliestBest(init);
    assert LeftMax(cs) == Pick(init[k0], cs[n]);
    if Outranks(cs[n], cs[k0]) {
      k := n;
      forall i | 0 <= i < n ensures Outranks(cs[n], cs[i]) {
        assert !Outranks(init[i], init[k0]);
        OutranksNegativelyTransitive(cs[n], cs[k0], cs[i]);
      }
    } else {
      k := k0;
      forall i | 0 <= i < k ensures Outranks(cs[k], cs[i]) {
        assert Outranks(init[k0], init[i]);
      }
    }
  }

  /** A ship that never dies always ranks above one that dies. */
  lemma SurvivorOutranksAnyFinite(c: Candidate, d: Candidate)
    requires c.dps != 0.0 && d.dps != 0.0
    requires Survives(c) && !Survives(d)
    ensures Outranks(c, d) && !Outranks(d, c)
  {
  }

  /** The best of the concatenation is the better of the two bests, ties to
      the first list: what makes chunking possible. */
  lemma {:induction false} LeftMaxAppend(xs: seq<Candidate>, ys: seq<Candidate>)
    requires xs != [] && ys != [] && WellPosed(xs) && WellPosed(ys)
    ensures WellPosed(xs + ys)
    ensures LeftMax(xs + ys) == Pick(LeftMax(xs), LeftMax(ys))
    decreases |ys|
  {
    WellPosedAppend(xs, ys);
    var w := xs + ys;
    LeftMaxSnoc(w);
    var ys0 := ys[..|ys| - 1];
    assert w[..|w| - 1] == xs + ys0 && w[|w| - 1] == ys[|ys| - 1];
    if |ys| > 1 {
      LeftMaxSnoc(ys);
      LeftMaxAppend(xs, ys0);
      var a, b, c := LeftMax(xs), LeftMax(ys0), ys[|ys| - 1];
      PickAssociative(a, b, c);
      assert LeftMax(w) == Pick(Pick(a, b), c);
      assert LeftMax(ys) == Pick(b, c);
    } else {
      assert xs + ys0 == xs;
    }
  }

  /** The best of a list is the better of the best before the last and the last. */
  lemma LeftMaxSnoc(cs: seq<Candidate>)
    requires |cs| > 1 && WellPosed(cs)
    ensures WellPosed(cs[..|cs| - 1])
    ensures LeftMax(cs) == Pick(LeftMax(cs[..|cs| - 1]), cs[|cs| - 1])
  {
    var init := cs[..|cs| - 1];
    assert forall i :: 0 <= i < |init| ==> init[i] == cs[i];
  }

  /** The running best that holding candidate c amounts to. */
  function Held(c: Candidate): Best
    requires c.dps != 0.0
  {
    Best(c.total / c.dps, if Survives(c) then c.dps else NoSurvivorDps, Some(c.loadout), Some(c.boosters), c.hp)
  }

  /** The result that holding candidate m ends with: the loadout fitted
      with m's boosters, its survival time, its net dps if the ship never
      dies and the sentinel otherwise, and its shield hitpoints. */
  function ResultOf(m: Candidate): TestResult
    requires m.dps != 0.0
  {
    TestResult(Some(m.loadout.(boosters := Some(m.boosters))), m.total / m.dps,
               if Survives(m) then m.dps else NoSurvivorDps, m.hp)
  }

  /** Both halves of well-posed candidates are well posed, and the other
      way round. */
  lemma WellPosedAppend(xs: seq<Candidate>, ys: seq<Candidate>)
    ensures WellPosed(xs + ys) <==> WellPosed(xs) && WellPosed(ys)
  {
    var w := xs + ys;
    if WellPosed(w) {
      forall i | 0 <= i < |xs| ensures xs[i].dps != 0.0 && xs[i].total > 0.0 {
        assert xs[i] == w[i];
      }
      forall i | 0 <= i < |ys| ensures ys[i].dps != 0.0 && ys[i].total > 0.0 {
        assert ys[i] == w[|xs| + i];
      }
    }
    if WellPosed(xs) && WellPosed(ys) {
      forall i | 0 <= i < |w| ensures w[i].dps != 0.0 && w[i].total > 0.0 {
        if i >= |xs| {
          assert w[i] == ys[i - |xs|];
        }
      }
    }
  }

  /** `close` is exact equality. */
  ghost predicate Exact(close: (real, real) -> bool)
  {
    forall a: real, b: real :: close(a, b) == (a == b)
  }

  lemma SurvivalTimeSign(c: Candidate)
    requires c.dps != 0.0 && c.total > 0.0
    ensures c.dps > 0.0 ==> c.total / c.dps > 0.0
    ensures c.dps < 0.0 ==> c.total / c.dps < 0.0
  {
    if c.dps < 0.0 {
      assert c.total / c.dps == -(c.total / -c.dps);
    }
  }

  /** The first candidate is always taken. */
  lemma ConsiderInitial(close: (real, real) -> bool, c: Candidate)
    requires c.dps != 0.0 && c.total > 0.0
    ensures Consider(close, Initial, c) == Held(c)
  {
    SurvivalTimeSign(c);
  }

  /** With exact closeness, holding m and considering c holds the better of
      the two. */
  lemma ConsiderHeld(close: (real, real) -> bool, m: Candidate, c: Candidate)
    requires Exact(close)
    requires m.dps != 0.0 && m.total > 0.0 && c.dps != 0.0 && c.total > 0.0
    ensures Consider(close, Held(m), c) == Held(Pick(m, c))
  {
    SurvivalTimeSign(m);
    SurvivalTimeSign(c);
    assert close(Held(m).lowestDps, c.dps) == (Held(m).lowestDps == c.dps);
  }

  /** The evaluator's loop holds, at the end, the earliest highest-ranked
      candidate. */
  lemma {:induction false} ScanLeftMax(close: (real, real) -> bool, cs: seq<Candidate>)
    requires Exact(close) && cs != [] && WellPosed(cs)
    ensures Scan(close, Initial, cs) == Ok(Held(LeftMax(cs)))
  {
    var last := cs[|cs| - 1];
    var init := cs[..|cs| - 1];
    assert forall i :: 0 <= i < |init| ==> init[i] == cs[i];
    if |cs| == 1 {
      assert init == [];
      ConsiderInitial(close, last);
    } else {
      ScanLeftMax(close, init);
      ConsiderHeld(close, LeftMax(init), last);
    }
  }

  /** Once a ship that never dies is held (with a positive hitpoint total),
      the held survival time and net dps stay negative: no ship that dies
      replaces it, whatever closeness means. */
  lemma {:induction false} SurvivorStays(close: (real, real) -> bool, b: Best, cs: seq<Candidate>)
    requires b.survivalTime < 0.0 && b.lowestDps < 0.0 && WellPosed(cs)
    ensures Scan(close, b, cs).Ok?
    ensures Scan(close, b, cs).value.survivalTime < 0.0
    ensures Scan(close, b, cs).value.lowestDps < 0.0
  {
    if cs != [] {
      var init := cs[..|cs| - 1];
      assert forall i :: 0 <= i < |init| ==> init[i] == cs[i];
      SurvivorStays(close, b, init);
      SurvivalTimeSign(cs[|cs| - 1]);
    }
  }

  /** The evaluation, ranked: on well-posed input it succeeds, with the
      earliest highest-ranked candidate's loadout and boosters; its incoming
      dps is the sentinel exactly when no ship survives, and its survival
      time is negative exactly when one does. */
  lemma EvaluationPicksBest(close: (real, real) -> bool, p: DamageProfile, variants: seq<ShieldBoosterVariant>,
                            loadouts: seq<LoadOut>, combos: seq<seq<nat>>)
    requires Exact(close) && ValidCombos(variants, combos) && combos != [] && loadouts != []
    requires WellPosed(Candidates(p, variants, loadouts, combos))
    ensures var cs := Candidates(p, variants, loadouts, combos);
      var m := LeftMax(cs);
      var r := Evaluation(close, p, variants, loadouts, combos);
      r == Ok(ResultOf(m)) &&
      ((exists i :: 0 <= i < |cs| && Survives(cs[i])) <==> r.value.survivalTime < 0.0) &&
      ((exists i :: 0 <= i < |cs| && Survives(cs[i])) <==> r.value.incomingDps != NoSurvivorDps)
  {
    var cs := Candidates(p, variants, loadouts, combos);
    CandidatesLength(p, variants, loadouts, combos);
    assert |cs| > 0 by {
      assert |combos| * |loadouts| >= 1 * |loadouts|;
    }
    ScanLeftMax(close, cs);
    var m := LeftMax(cs);
    SurvivalTimeSign(m);
    var k := LeftMaxIsEarliestBest(cs);
  }

  /** Whatever closeness means, a successful evaluation returns one of the
      loadouts of the list fitted with the boosters of one of the
      combinations, as many boosters as that combination has indices. */
  lemma EvaluationOrigin(close: (real, real) -> bool, p: DamageProfile, variants: seq<ShieldBoosterVariant>,
                         loadouts: seq<LoadOut>, combos: seq<seq<nat>>)
    requires ValidCombos(variants, combos)
    requires Evaluation(close, p, variants, loadouts, combos).Ok?
    ensures var r := Evaluation(close, p, variants, loadouts, combos).value;
      exists i, j :: (0 <= i < |combos| && 0 <= j < |loadouts| &&
        r.loadout == Some(loadouts[j].(boosters := Some(Boosters(variants, combos[i])))) &&
        |Boosters(variants, combos[i])| == |combos[i]|)
  {
    var cs := Candidates(p, variants, loadouts, combos);
    var c := ScanOrigin(close, Initial, cs);
    CandidateOrigin(p, variants, loadouts, combos, c);
  }

  /** A held loadout comes from one of the candidates scanned. */
  lemma {:induction false} ScanOrigin(close: (real, real) -> bool, b: Best, cs: seq<Candidate>) returns (c: Candidate)
    requires b.loadout.None? && Scan(close, b, cs).Ok? && Scan(close, b, cs).value.loadout.Some?
    ensures c in cs
    ensures Scan(close, b, cs).value.loadout == Some(c.loadout)
    ensures Scan(close, b, cs).value.boosters == Some(c.boosters)
  {
    var init := cs[..|cs| - 1];
    var last := cs[|cs| - 1];
    var b1 := Scan(close, b, init).value;
    if Consider(close, b1, last) == b1 {
      c := ScanOrigin(close, b, init);
      var k :| 0 <= k < |init| && init[k] == c;
      assert cs[k] == c;
    } else {
      c := last;
    }
  }
}
