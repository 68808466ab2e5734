/** LoadOut.py: a shield generator fitted to a ship, the boosters that go
    with it, and the loadout event that describes the fit. */
module LoadOuts {
  import opened Wrappers
  import opened Json
  import opened StarShips
  import opened ShieldBoosterVariants
  import opened ShieldGenerators

  /** A loadout. The source deep-copies a loadout before it sets the
      boosters on it, so a loadout is a value here. */
  datatype LoadOut = LoadOut(
    shieldGenerator: ShieldGenerator,
    ship: Option<StarShip>,
    boosters: Option<seq<ShieldBoosterVariant>>,
    shieldStrength: real)

  /** The transcendental and rounding pieces of the mass curve: the natural
      logarithm, x ** y, and round(x, 4). */
  datatype CurveMath = CurveMath(log: real -> real, pow: (real, real) -> real, round4: real -> real)

  function Min(a: real, b: real): (m: real)
    ensures m <= a && m <= b && (m == a || m == b)
  {
    if a <= b then a else b
  }

  /** The normalised hull mass of the curve: how far the hull is below the
      generator's maximum mass, relative to its mass range, capped at 1. */
  function XNorm(sg: ShieldGenerator, hullMass: real): real
    requires sg.maxmass != sg.minmass
  {
    Min(1.0, (sg.maxmass - hullMass) / (sg.maxmass - sg.minmass))
  }

  /** The argument of the exponent's numerator logarithm: where optmul lies
      in the multiplier range. */
  function MulRatio(sg: ShieldGenerator): real
    requires sg.maxmul != sg.minmul
  {
    (sg.optmul - sg.minmul) / (sg.maxmul - sg.minmul)
  }

  /** The argument of the exponent's denominator logarithm: where optmass
      lies below maxmass, relative to the mass range, capped at 1. */
  function MassRatio(sg: ShieldGenerator): real
    requires sg.maxmass != sg.minmass
  {
    Min(1.0, (sg.maxmass - sg.optmass) / (sg.maxmass - sg.minmass))
  }

  /** The exponent exists when both divisions have a non-zero divisor, both
      logarithms a positive argument, and the denominator logarithm is not
      zero. */
  predicate ExponentDefined(sg: ShieldGenerator, m: CurveMath)
  {
    sg.maxmass != sg.minmass && sg.maxmul != sg.minmul &&
    MulRatio(sg) > 0.0 && MassRatio(sg) > 0.0 && m.log(MassRatio(sg)) != 0.0
  }

  function Exponent(sg: ShieldGenerator, m: CurveMath): real
    requires ExponentDefined(sg, m)
  {
    m.log(MulRatio(sg)) / m.log(MassRatio(sg))
  }

  /** The domain of `math.pow(x, y)`: a positive base, a zero base with a
      non-negative exponent, or a negative base with an integral exponent. */
  predicate PowDefined(x: real, y: real)
  {
    x > 0.0 || (x == 0.0 && y >= 0.0) || (x < 0.0 && y.Floor as real == y)
  }

  /** The curve of a generator on a hull of the given mass is computed without
      an exception. */
  predicate CurveDefined(sg: ShieldGenerator, hullMass: real, m: CurveMath)
  {
    ExponentDefined(sg, m) && PowDefined(XNorm(sg, hullMass), Exponent(sg, m))
  }

  /** The exceptions of the mass curve: ZeroDivisionError, and the
      ValueError ("math domain error") of `math.log` and `math.pow`. */
  datatype CurveError = CurveDivisionByZero | CurveMathDomain

  /** The exception the curve raises first, in the order in which the
      source evaluates its divisions, logarithms and power; None when it
      raises none. */
  function CurveFault(sg: ShieldGenerator, hullMass: real, m: CurveMath): (e: Option<CurveError>)
    ensures e.None? <==> CurveDefined(sg, hullMass, m)
  {
    if sg.maxmass == sg.minmass || sg.maxmul == sg.minmul then Some(CurveDivisionByZero)
    else if MulRatio(sg) <= 0.0 || MassRatio(sg) <= 0.0 then Some(CurveMathDomain)
    else if m.log(MassRatio(sg)) == 0.0 then Some(CurveDivisionByZero)
    else if !PowDefined(XNorm(sg, hullMass), Exponent(sg, m)) then Some(CurveMathDomain)
    else None
  }

  /** The multiplier of the base shield strength: minmul plus the curve's
      share of the multiplier range. */
  function Multiplier(sg: ShieldGenerator, hullMass: real, m: CurveMath): real
    requires CurveDefined(sg, hullMass, m)
  {
    sg.minmul + m.pow(XNorm(sg, hullMass), Exponent(sg, m)) * (sg.maxmul - sg.minmul)
  }

  /** `__calculate_shield_strength`: the rounded product of the ship's base
      strength and the multiplier, or 0 without a ship. */
  function ShieldStrength(sg: ShieldGenerator, ship: Option<StarShip>, m: CurveMath): (s: real)
    requires ship.Some? ==> CurveDefined(sg, ship.value.hullMass, m)
    ensures ship.None? ==> s == 0.0
    ensures ship.Some? ==> s == m.round4(ship.value.baseShieldStrength * Multiplier(sg, ship.value.hullMass, m))
  {
    if ship.None? then 0.0
    else m.round4(ship.value.baseShieldStrength * Multiplier(sg, ship.value.hullMass, m))
  }

  /** `LoadOut(shield_generator, ship)`: no boosters yet, and the strength the
      curve gives. */
  function NewLoadOut(sg: ShieldGenerator, ship: Option<StarShip>, m: CurveMath): (l: LoadOut)
    requires ship.Some? ==> CurveDefined(sg, ship.value.hullMass, m)
    ensures l.shieldGenerator == sg && l.ship == ship && l.boosters.None?
    ensures l.shieldStrength == ShieldStrength(sg, ship, m)
  {
    LoadOut(sg, ship, None, ShieldStrength(sg, ship, m))
  }

  /** The normalised mass never exceeds 1, and a hull at or above the
      maximum mass gets a value of at most 0. */
  lemma XNormBounds(sg: ShieldGenerator, hullMass: real)
    requires sg.maxmass > sg.minmass
    ensures XNorm(sg, hullMass) <= 1.0
    ensures hullMass >= sg.maxmass ==> XNorm(sg, hullMass) <= 0.0
  {
    var d := sg.maxmass - sg.minmass;
    if hullMass >= sg.maxmass {
      assert (sg.maxmass - hullMass) / d <= 0.0;
    }
  }

  /** Whenever the curve value lies in [0, 1], the multiplier lies between
      minmul and maxmul. */
  lemma MultiplierBetween(sg: ShieldGenerator, hullMass: real, m: CurveMath)
    requires CurveDefined(sg, hullMass, m) && sg.minmul < sg.maxmul
    requires 0.0 <= m.pow(XNorm(sg, hullMass), Exponent(sg, m)) <= 1.0
    ensures sg.minmul <= Multiplier(sg, hullMass, m) <= sg.maxmul
  {
    var y := m.pow(XNorm(sg, hullMass), Exponent(sg, m));
    var v := Multiplier(sg, hullMass, m);
    assert v == sg.minmul + y * (sg.maxmul - sg.minmul);
    Interpolate(sg.minmul, sg.maxmul, y, v);
  }

  /** A generator whose optimal mass and multiplier lie strictly inside
      their ranges, on a hull lighter than its maximum mass, raises nothing,
      provided the logarithm of the mass ratio is not zero. */
  lemma CurveDefinedWhenOrdered(sg: ShieldGenerator, hullMass: real, m: CurveMath)
    requires sg.minmass < sg.optmass < sg.maxmass && sg.minmul < sg.optmul < sg.maxmul
    requires hullMass < sg.maxmass
    requires sg.maxmass != sg.minmass && m.log(MassRatio(sg)) != 0.0
    ensures CurveFault(sg, hullMass, m) == None
  {
    var d := sg.maxmass - sg.minmass;
    assert MulRatio(sg) > 0.0 by { PositiveQuotient(sg.optmul - sg.minmul, sg.maxmul - sg.minmul); }
    assert MassRatio(sg) > 0.0 by { PositiveQuotient(sg.maxmass - sg.optmass, d); }
    assert XNorm(sg, hullMass) > 0.0 by { PositiveQuotient(sg.maxmass - hullMass, d); }
  }

  /** A hull heavier than the generator's maximum mass makes `math.pow` take
      a negative base, which raises a ValueError unless the exponent is
      integral. */
  lemma HeavyHullRaises(sg: ShieldGenerator, hullMass: real, m: CurveMath)
    requires ExponentDefined(sg, m) && sg.minmass < sg.maxmass && hullMass > sg.maxmass
    requires Exponent(sg, m).Floor as real != Exponent(sg, m)
    ensures CurveFault(sg, hullMass, m) == Some(CurveMathDomain)
  {
    var d := sg.maxmass - sg.minmass;
    assert (sg.maxmass - hullMass) / d < 0.0 by { NegativeQuotient(sg.maxmass - hullMass, d); }
    assert XNorm(sg, hullMass) < 0.0;
  }

  lemma PositiveQuotient(a: real, b: real)
    requires a > 0.0 && b > 0.0
    ensures a / b > 0.0
  {
  }

  lemma NegativeQuotient(a: real, b: real)
    requires a < 0.0 && b > 0.0
    ensures a / b < 0.0
  {
  }

  lemma Interpolate(lo: real, hi: real, y: real, v: real)
    requires lo < hi && 0.0 <= y <= 1.0 && v == lo + y * (hi - lo)
    ensures lo <= v <= hi
  {
    MulNonNeg(y, hi - lo);
    MulNonNeg(1.0 - y, hi - lo);
    assert (1.0 - y) * (hi - lo) == (hi - lo) - y * (hi - lo);
  }

  lemma MulNonNeg(a: real, b: real)
    requires 0.0 <= a && 0.0 <= b
    ensures 0.0 <= a * b
  {
  }

  /** exp_res, kin_res, therm_res and hp of a loadout. */
  datatype TotalValues = TotalValues(expRes: real, kinRes: real, thermRes: real, hp: real)

  /** `calculate_total_values`: the generator's damage multipliers times the
      booster multipliers, and the shield strength times the hitpoint bonus. */
  function CalculateTotalValues(l: LoadOut, b: Bonuses): (t: TotalValues)
    ensures t.expRes == (1.0 - l.shieldGenerator.explres) * b.exp
    ensures t.kinRes == (1.0 - l.shieldGenerator.kinres) * b.kin
    ensures t.thermRes == (1.0 - l.shieldGenerator.thermres) * b.therm
    ensures t.hp == l.shieldStrength * b.hitpoints
  {
    TotalValues((1.0 - l.shieldGenerator.explres) * b.exp, (1.0 - l.shieldGenerator.kinres) * b.kin,
                (1.0 - l.shieldGenerator.thermres) * b.therm, l.shieldStrength * b.hitpoints)
  }

  /** `get_total_values`: with boosters set, their combined bonuses, and
      neutral bonuses otherwise. */
  function GetTotalValues(l: LoadOut): TotalValues
  {
    if l.boosters.Some? && |l.boosters.value| > 0 then CalculateTotalValues(l, BoosterBonuses(l.boosters.value))
    else CalculateTotalValues(l, Bonuses(1.0, 1.0, 1.0, 1.0))
  }

  function BoostersOrNone(l: LoadOut): seq<ShieldBoosterVariant>
  {
    if l.boosters.Some? then l.boosters.value else []
  }

  /** The two branches agree: the totals are always those of the boosters
      set, an empty or missing list counting as no booster. */
  lemma TotalValuesOfBoosters(l: LoadOut)
    ensures GetTotalValues(l) == CalculateTotalValues(l, BoosterBonuses(BoostersOrNone(l)))
  {
    NoBoosters();
  }

  /** Without boosters, the totals are the generator's own multipliers and
      the bare shield strength. */
  lemma TotalValuesWithoutBoosters(l: LoadOut)
    requires l.boosters.None? || l.boosters.value == []
    ensures GetTotalValues(l) == TotalValues(1.0 - l.shieldGenerator.explres, 1.0 - l.shieldGenerator.kinres,
                                             1.0 - l.shieldGenerator.thermres, l.shieldStrength)
  {
  }

  /** The order in which the boosters are fitted does not matter. */
  lemma TotalValuesPermutation(l: LoadOut, bs: seq<ShieldBoosterVariant>)
    requires l.boosters.Some? && multiset(bs) == multiset(l.boosters.value)
    ensures GetTotalValues(l.(boosters := Some(bs))) == GetTotalValues(l)
  {
    TotalValuesOfBoosters(l);
    TotalValuesOfBoosters(l.(boosters := Some(bs)));
    BonusesPermutation(bs, l.boosters.value);
  }

  // ---------------------------------------------------------------------
  // generate_loadout_event
  // ---------------------------------------------------------------------

  /** Why building the event fails: the ship's template has no "Modules"
      list, the boosters were never set, or there are more boosters than
      utility slots. */
  datatype EventError = NoModulesList | BoostersNotSet | BoosterNumberMismatch

  /** The generator's entry: the internal slot found by scanning down from the
      highest slot number. */
  function GeneratorEntry(sg: ShieldGenerator, ship: StarShip, defaultSg: ShieldGenerator): map<string, Json>
  {
    var slot := GetAvailableInternalSlot(ship, sg.moduleClass, true);
    CreateLoadout(sg, defaultSg, slot.0, slot.1)
  }

  /** Booster i goes into the i-th free utility slot. */
  function BoosterEntries(bs: seq<ShieldBoosterVariant>, free: seq<int>): (r: seq<Json>)
    requires |bs| <= |free|
    ensures |r| == |bs|
    ensures forall i :: 0 <= i < |bs| ==> r[i] == Obj(GetLoadoutTemplateSlot(bs[i], free[i]))
  {
    seq(|bs|, i requires 0 <= i < |bs| => Obj(GetLoadoutTemplateSlot(bs[i], free[i])))
  }

  predicate HasModulesList(t: map<string, Json>)
  {
    "Modules" in t && t["Modules"].Arr?
  }

  /** The event the source builds, or the error it raises. */
  function LoadoutEvent(l: LoadOut, defaultSg: ShieldGenerator): Result<map<string, Json>, EventError>
  {
    if l.ship.None? then Ok(map[])
    else
      var ship := l.ship.value;
      var t := ship.loadoutTemplate;
      if !HasModulesList(t) then Err(NoModulesList)
      else if l.boosters.None? then Err(BoostersNotSet)
      else if |l.boosters.value| > ship.UtilitySlots() then Err(BoosterNumberMismatch)
      else
        var modules := t["Modules"].items + [Obj(GeneratorEntry(l.shieldGenerator, ship, defaultSg))]
          + BoosterEntries(l.boosters.value, ship.utilitySlotsFree);
        Ok(t["Modules" := Arr(modules)])
  }

  /** The loop of `generate_loadout_event`: booster i, placed in the i-th
      free utility slot, appended after the modules already there. */
  method AppendBoosterEntries(base: seq<Json>, boosters: seq<ShieldBoosterVariant>, free: seq<int>)
    returns (modules: seq<Json>)
    requires |boosters| <= |free|
    ensures modules == base + BoosterEntries(boosters, free)
  {
    modules := base;
    var i := 0;
    while i < |boosters|
      invariant 0 <= i <= |boosters|
      invariant modules == base + BoosterEntries(boosters[..i], free)
    {
      assert BoosterEntries(boosters[..i + 1], free)
        == BoosterEntries(boosters[..i], free) + [Obj(GetLoadoutTemplateSlot(boosters[i], free[i]))];
      modules := modules + [Obj(GetLoadoutTemplateSlot(boosters[i], free[i]))];
      i := i + 1;
    }
    assert boosters[..i] == boosters;
  }

  /** `generate_loadout_event`: append the generator and then every booster
      to a copy of the ship's module list. */
  method GenerateLoadoutEvent(l: LoadOut, defaultSg: ShieldGenerator)
    returns (r: Result<map<string, Json>, EventError>)
    ensures r == LoadoutEvent(l, defaultSg)
  {
    if l.ship.None? {
      return Ok(map[]);
    }
    var ship := l.ship.value;
    var loadoutJson := ship.loadoutTemplate;
    if !HasModulesList(loadoutJson) {
      return Err(NoModulesList);
    }
    var modules := loadoutJson["Modules"].items;
    var slot := GetAvailableInternalSlot(ship, l.shieldGenerator.moduleClass, true);
    modules := modules + [Obj(CreateLoadout(l.shieldGenerator, defaultSg, slot.0, slot.1))];
    if l.boosters.None? {
      return Err(BoostersNotSet);
    }
    var boosters := l.boosters.value;
    if |boosters| > ship.UtilitySlots() {
      return Err(BoosterNumberMismatch);
    }
    modules := AppendBoosterEntries(modules, boosters, ship.utilitySlotsFree);
    r := Ok(loadoutJson["Modules" := Arr(modules)]);
  }

  /** The event fails exactly in the three error cases, in the order the
      source checks them; without a ship it is empty. */
  lemma LoadoutEventErrors(l: LoadOut, defaultSg: ShieldGenerator)
    ensures l.ship.None? ==> LoadoutEvent(l, defaultSg) == Ok(map[])
    ensures LoadoutEvent(l, defaultSg) == Err(NoModulesList) <==>
      l.ship.Some? && !HasModulesList(l.ship.value.loadoutTemplate)
    ensures LoadoutEvent(l, defaultSg) == Err(BoostersNotSet) <==>
      l.ship.Some? && HasModulesList(l.ship.value.loadoutTemplate) && l.boosters.None?
    ensures LoadoutEvent(l, defaultSg) == Err(BoosterNumberMismatch) <==>
      l.ship.Some? && HasModulesList(l.ship.value.loadoutTemplate) && l.boosters.Some?
      && |l.boosters.value| > l.ship.value.UtilitySlots()
  {
  }

  /** A successful event with a ship keeps every key of the template and
      replaces its module list by the old modules, then the generator, then
      one entry per booster, booster k in the k-th free utility slot. */
  lemma LoadoutEventModules(l: LoadOut, defaultSg: ShieldGenerator, k: nat)
    requires l.ship.Some? && LoadoutEvent(l, defaultSg).Ok?
    ensures var ship := l.ship.value;
      var t := ship.loadoutTemplate;
      var e := LoadoutEvent(l, defaultSg).value;
      var before := t["Modules"].items;
      e.Keys == t.Keys &&
      (forall key :: key in t && key != "Modules" ==> e[key] == t[key]) &&
      e["Modules"].Arr? &&
      |e["Modules"].items| == |before| + 1 + |l.boosters.value| &&
      e["Modules"].items[..|before|] == before &&
      e["Modules"].items[|before|] == Obj(GeneratorEntry(l.shieldGenerator, ship, defaultSg)) &&
      (k < |l.boosters.value| ==>
        e["Modules"].items[|before| + 1 + k] == Obj(GetLoadoutTemplateSlot(l.boosters.value[k], ship.utilitySlotsFree[k])))
  {
    var ship := l.ship.value;
    var t := ship.loadoutTemplate;
    var gen := Obj(GeneratorEntry(l.shieldGenerator, ship, defaultSg));
    var rest := BoosterEntries(l.boosters.value, ship.utilitySlotsFree);
    assert HasModulesList(t);
    assert LoadoutEvent(l, defaultSg) == Ok(t["Modules" := Arr(t["Modules"].items + [gen] + rest)]);
    ReplaceModules(t, gen, rest, k);
  }

  /** The template with its module list extended by one entry and a tail. */
  lemma ReplaceModules(t: map<string, Json>, x: Json, b: seq<Json>, k: nat)
    requires HasModulesList(t)
    ensures var a := t["Modules"].items;
      var e := t["Modules" := Arr(a + [x] + b)];
      e.Keys == t.Keys &&
      (forall key :: key in t && key != "Modules" ==> e[key] == t[key]) &&
      e["Modules"].Arr? &&
      |e["Modules"].items| == |a| + 1 + |b| && e["Modules"].items[..|a|] == a && e["Modules"].items[|a|] == x &&
      (k < |b| ==> e["Modules"].items[|a| + 1 + k] == b[k])
  {
    var a := t["Modules"].items;
    assert (a + [x] + b)[..|a|] == a;
  }

  /** The generator sits in the highest-numbered internal slot that takes its
      class (capped at the ship's largest internal class), and that slot
      number and its class name the entry's slot. */
  lemma GeneratorEntrySlot(sg: ShieldGenerator, ship: StarShip, defaultSg: ShieldGenerator)
    ensures var r := GetAvailableInternalSlot(ship, sg.moduleClass, true);
      var t := if sg.moduleClass <= ship.highestInternal then sg.moduleClass else ship.highestInternal;
      GeneratorEntry(sg, ship, defaultSg)["Slot"] == Str(SlotName(r.0, r.1)) &&
      ((r in ship.internalSlotLayout && r.1 >= t &&
        forall e :: e in ship.internalSlotLayout && e.0 > r.0 ==> e.1 < t)
       || (r == (0, 0) && forall e :: e in ship.internalSlotLayout ==> e.1 < t))
  {
    AvailableInternalSlot(ship, sg.moduleClass, true);
  }
}
