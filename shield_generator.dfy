/** ShieldGenerator.py: a shield generator, the engineering rules that derive
    its variants, and its entry in a loadout event. */
module ShieldGenerators {
  import opened Json
  import opened Combinatorics

  /** A generator. The source deep-copies a prototype before every change and
      changes only the copy in place, so a generator is a value here and each
      in-place update is a function from the old value to the new one. */
  datatype ShieldGenerator = ShieldGenerator(
    symbol: string,
    integrity: real,
    power: real,
    explres: real,
    kinres: real,
    thermres: real,
    name: string,
    moduleClass: int,
    regen: real,
    brokenregen: real,
    distdraw: real,
    maxmass: real,
    maxmul: real,
    minmass: real,
    minmul: real,
    optmass: real,
    optmul: real,
    engineeredName: string,
    engineeredSymbol: string,
    experimentalName: string,
    experimentalSymbol: string)

  const TypeNormal: string := "normal"
  const TypeBiweave: string := "bi-weave"
  const TypePrismatic: string := "prismatic"

  /** The generator node of the data file. */
  datatype GeneratorJson = GeneratorJson(
    symbol: string, integrity: real, power: real, explres: real, kinres: real,
    thermres: real, name: string, moduleClass: int, regen: real, brokenregen: real,
    distdraw: real, maxmass: real, maxmul: real, minmass: real, minmul: real,
    optmass: real, optmul: real)

  /** `create_from_json`: the node's values, with the engineering and
      experimental labels left at the defaults of a plain generator. */
  function CreateFromJson(j: GeneratorJson): (g: ShieldGenerator)
    ensures g.engineeredName == "not engineered" && g.engineeredSymbol == ""
    ensures g.experimentalName == "no experimental effect" && g.experimentalSymbol == ""
  {
    ShieldGenerator(j.symbol, j.integrity, j.power, j.explres, j.kinres, j.thermres,
      j.name, j.moduleClass, j.regen, j.brokenregen, j.distdraw, j.maxmass, j.maxmul,
      j.minmass, j.minmul, j.optmass, j.optmul,
      "not engineered", "", "no experimental effect", "")
  }

  function ToJson(g: ShieldGenerator): GeneratorJson
  {
    GeneratorJson(g.symbol, g.integrity, g.power, g.explres, g.kinres, g.thermres,
      g.name, g.moduleClass, g.regen, g.brokenregen, g.distdraw, g.maxmass, g.maxmul,
      g.minmass, g.minmul, g.optmass, g.optmul)
  }

  /** Every value of the node survives loading. */
  lemma CreateFromJsonRoundTrip(j: GeneratorJson)
    ensures ToJson(CreateFromJson(j)) == j
  {
  }

  // ---------------------------------------------------------------------
  // Engineering
  // ---------------------------------------------------------------------

  /** The numeric attributes that engineering may change. */
  datatype Attr =
    | Integrity | Power | ExplRes | KinRes | ThermRes | Regen | BrokenRegen
    | DistDraw | MaxMul | MinMul | OptMul

  /** `CALC_NORMAL`, `CALC_RES`, `CALC_MASS`. */
  datatype CalcType = CalcNormal | CalcRes | CalcMass

  /** A blueprint or an experimental effect: its symbol, its name and its
      feature values by key. */
  datatype Recipe = Recipe(symbol: string, name: string, features: map<string, real>)

  function Get(g: ShieldGenerator, a: Attr): real
  {
    match a
    case Integrity => g.integrity
    case Power => g.power
    case ExplRes => g.explres
    case KinRes => g.kinres
    case ThermRes => g.thermres
    case Regen => g.regen
    case BrokenRegen => g.brokenregen
    case DistDraw => g.distdraw
    case MaxMul => g.maxmul
    case MinMul => g.minmul
    case OptMul => g.optmul
  }

  /** `setattr(g, a, v)`. */
  function Set(g: ShieldGenerator, a: Attr, v: real): (h: ShieldGenerator)
    ensures Get(h, a) == v
    ensures SameIdentity(g, h)
  {
    match a
    case Integrity => g.(integrity := v)
    case Power => g.(power := v)
    case ExplRes => g.(explres := v)
    case KinRes => g.(kinres := v)
    case ThermRes => g.(thermres := v)
    case Regen => g.(regen := v)
    case BrokenRegen => g.(brokenregen := v)
    case DistDraw => g.(distdraw := v)
    case MaxMul => g.(maxmul := v)
    case MinMul => g.(minmul := v)
    case OptMul => g.(optmul := v)
  }

  /** Setting one attribute leaves every other attribute as it was. */
  lemma SetFrame(g: ShieldGenerator, a: Attr, v: real, b: Attr)
    requires b != a
    ensures Get(Set(g, a, v), b) == Get(g, b)
  {
  }

  /** Everything that engineering never touches: names, labels, class and
      the three masses. */
  predicate SameIdentity(g: ShieldGenerator, h: ShieldGenerator)
  {
    g.symbol == h.symbol && g.name == h.name && g.moduleClass == h.moduleClass &&
    g.maxmass == h.maxmass && g.minmass == h.minmass && g.optmass == h.optmass &&
    g.engineeredName == h.engineeredName && g.engineeredSymbol == h.engineeredSymbol &&
    g.experimentalName == h.experimentalName && g.experimentalSymbol == h.experimentalSymbol
  }

  /** The three update formulas. */
  function Engineer(rule: CalcType, r: real, v: real): real
  {
    match rule
    case CalcRes => 1.0 - (1.0 - r) * (1.0 - v)
    case CalcMass => (r * 100.0) * (1.0 + v) / 100.0
    case CalcNormal => r * (1.0 + v)
  }

  /** The new value of an attribute whose current value is r. */
  function Updated(r: real, key: string, features: map<string, real>, rule: CalcType,
                   isPercentage: bool, round4: real -> real): real
  {
    if key in features then
      var v := if isPercentage then features[key] / 100.0 else features[key];
      round4(Engineer(rule, r, v))
    else r
  }

  /** `_calculate_and_set_engineering`: when the key is a feature, the
      attribute gets the rounded formula of its value and the feature value
      (a percentage first divided by 100); nothing else changes, and nothing
      at all when the key is absent. */
  function CalculateAndSetEngineering(g: ShieldGenerator, attr: Attr, key: string,
      features: map<string, real>, rule: CalcType, isPercentage: bool, round4: real -> real)
    : (h: ShieldGenerator)
    ensures key !in features ==> h == g
    ensures Get(h, attr) == Updated(Get(g, attr), key, features, rule, isPercentage, round4)
    ensures SameIdentity(g, h)
  {
    if key in features then
      var r := Get(g, attr);
      var v := features[key];
      var v := if isPercentage then v / 100.0 else v;
      Set(g, attr, round4(Engineer(rule, r, v)))
    else g
  }

  /** ...and the other attributes keep their values. */
  lemma CalculateAndSetFrame(g: ShieldGenerator, attr: Attr, key: string, features: map<string, real>,
                             rule: CalcType, isPercentage: bool, round4: real -> real, b: Attr)
    requires b != attr
    ensures Get(CalculateAndSetEngineering(g, attr, key, features, rule, isPercentage, round4), b) == Get(g, b)
  {
    if key in features {
      var v := if isPercentage then features[key] / 100.0 else features[key];
      SetFrame(g, attr, round4(Engineer(rule, Get(g, attr), v)), b);
    }
  }

  /** `_apply_engineering`: the eleven updates in the source's order. */
  function ApplyEngineering(g: ShieldGenerator, features: map<string, real>, isPercentage: bool,
                            round4: real -> real): ShieldGenerator
  {
    var g := CalculateAndSetEngineering(g, Integrity, "integrity", features, CalcNormal, false, round4);
    var g := CalculateAndSetEngineering(g, BrokenRegen, "brokenregen", features, CalcNormal, false, round4);
    var g := CalculateAndSetEngineering(g, Regen, "regen", features, CalcNormal, false, round4);
    var g := CalculateAndSetEngineering(g, DistDraw, "distdraw", features, CalcNormal, false, round4);
    var g := CalculateAndSetEngineering(g, Power, "power", features, CalcNormal, false, round4);
    var g := CalculateAndSetEngineering(g, OptMul, "optmul", features, CalcMass, false, round4);
    var g := CalculateAndSetEngineering(g, MinMul, "optmul", features, CalcMass, false, round4);
    var g := CalculateAndSetEngineering(g, MaxMul, "optmul", features, CalcMass, false, round4);
    var g := CalculateAndSetEngineering(g, KinRes, "kinres", features, CalcRes, isPercentage, round4);
    var g := CalculateAndSetEngineering(g, ThermRes, "thermres", features, CalcRes, isPercentage, round4);
    CalculateAndSetEngineering(g, ExplRes, "explres", features, CalcRes, isPercentage, round4)
  }

  /** The rule table: which feature key drives each attribute... */
  function FeatureKey(a: Attr): string
  {
    match a
    case Integrity => "integrity"
    case Power => "power"
    case ExplRes => "explres"
    case KinRes => "kinres"
    case ThermRes => "thermres"
    case Regen => "regen"
    case BrokenRegen => "brokenregen"
    case DistDraw => "distdraw"
    case MaxMul => "optmul"
    case MinMul => "optmul"
    case OptMul => "optmul"
  }

  /** ...with which formula... */
  function Formula(a: Attr): CalcType
  {
    match a
    case ExplRes => CalcRes
    case KinRes => CalcRes
    case ThermRes => CalcRes
    case MaxMul => CalcMass
    case MinMul => CalcMass
    case OptMul => CalcMass
    case _ => CalcNormal
  }

  /** ...and whether a percentage value is honoured. */
  predicate HonoursPercentage(a: Attr)
  {
    a == ExplRes || a == KinRes || a == ThermRes
  }

  /** Each attribute is updated once, from its own old value, by the rule of
      the table; names, class and masses are kept. In particular minmul,
      optmul and maxmul all scale by the "optmul" feature. */
  lemma ApplyEngineeringByAttr(g: ShieldGenerator, features: map<string, real>, isPercentage: bool,
                               round4: real -> real)
    ensures forall a :: (Get(ApplyEngineering(g, features, isPercentage, round4), a)
      == Updated(Get(g, a), FeatureKey(a), features, Formula(a), isPercentage && HonoursPercentage(a), round4))
    ensures SameIdentity(g, ApplyEngineering(g, features, isPercentage, round4))
  {
    forall a ensures Get(ApplyEngineering(g, features, isPercentage, round4), a)
      == Updated(Get(g, a), FeatureKey(a), features, Formula(a), isPercentage && HonoursPercentage(a), round4)
    {
      ApplyEngineeringAt(g, features, isPercentage, round4, a);
    }
  }

  lemma ApplyEngineeringAt(g: ShieldGenerator, f: map<string, real>, p: bool, round4: real -> real, a: Attr)
    ensures Get(ApplyEngineering(g, f, p, round4), a)
      == Updated(Get(g, a), FeatureKey(a), f, Formula(a), p && HonoursPercentage(a), round4)
  {
    var g1 := CalculateAndSetEngineering(g, Integrity, "integrity", f, CalcNormal, false, round4);
    var g2 := CalculateAndSetEngineering(g1, BrokenRegen, "brokenregen", f, CalcNormal, false, round4);
    var g3 := CalculateAndSetEngineering(g2, Regen, "regen", f, CalcNormal, false, round4);
    var g4 := CalculateAndSetEngineering(g3, DistDraw, "distdraw", f, CalcNormal, false, round4);
    var g5 := CalculateAndSetEngineering(g4, Power, "power", f, CalcNormal, false, round4);
    var g6 := CalculateAndSetEngineering(g5, OptMul, "optmul", f, CalcMass, false, round4);
    var g7 := CalculateAndSetEngineering(g6, MinMul, "optmul", f, CalcMass, false, round4);
    var g8 := CalculateAndSetEngineering(g7, MaxMul, "optmul", f, CalcMass, false, round4);
    var g9 := CalculateAndSetEngineering(g8, KinRes, "kinres", f, CalcRes, p, round4);
    var g10 := CalculateAndSetEngineering(g9, ThermRes, "thermres", f, CalcRes, p, round4);
    var g11 := CalculateAndSetEngineering(g10, ExplRes, "explres", f, CalcRes, p, round4);
    assert g11 == ApplyEngineering(g, f, p, round4);
    PlainUpdatesAt(g, f, round4, a);
    MassUpdatesAt(g5, f, round4, a);
    ResistanceUpdatesAt(g8, f, p, round4, a);
  }

  /** The first five updates change each plain attribute by its own rule. */
  lemma PlainUpdatesAt(g: ShieldGenerator, f: map<string, real>, round4: real -> real, a: Attr)
    ensures var g1 := CalculateAndSetEngineering(g, Integrity, "integrity", f, CalcNormal, false, round4);
      var g2 := CalculateAndSetEngineering(g1, BrokenRegen, "brokenregen", f, CalcNormal, false, round4);
      var g3 := CalculateAndSetEngineering(g2, Regen, "regen", f, CalcNormal, false, round4);
      var g4 := CalculateAndSetEngineering(g3, DistDraw, "distdraw", f, CalcNormal, false, round4);
      var g5 := CalculateAndSetEngineering(g4, Power, "power", f, CalcNormal, false, round4);
      Get(g5, a) == if Formula(a) == CalcNormal then Updated(Get(g, a), FeatureKey(a), f, CalcNormal, false, round4)
                    else Get(g, a)
  {
    var g1 := CalculateAndSetEngineering(g, Integrity, "integrity", f, CalcNormal, false, round4);
    var g2 := CalculateAndSetEngineering(g1, BrokenRegen, "brokenregen", f, CalcNormal, false, round4);
    var g3 := CalculateAndSetEngineering(g2, Regen, "regen", f, CalcNormal, false, round4);
    var g4 := CalculateAndSetEngineering(g3, DistDraw, "distdraw", f, CalcNormal, false, round4);
    if a != Integrity { CalculateAndSetFrame(g, Integrity, "integrity", f, CalcNormal, false, round4, a); }
    if a != BrokenRegen { CalculateAndSetFrame(g1, BrokenRegen, "brokenregen", f, CalcNormal, false, round4, a); }
    if a != Regen { CalculateAndSetFrame(g2, Regen, "regen", f, CalcNormal, false, round4, a); }
    if a != DistDraw { CalculateAndSetFrame(g3, DistDraw, "distdraw", f, CalcNormal, false, round4, a); }
    if a != Power { CalculateAndSetFrame(g4, Power, "power", f, CalcNormal, false, round4, a); }
  }

  /** The next three update the mass multipliers, all by the "optmul" feature. */
  lemma MassUpdatesAt(g: ShieldGenerator, f: map<string, real>, round4: real -> real, a: Attr)
    ensures var g6 := CalculateAndSetEngineering(g, OptMul, "optmul", f, CalcMass, false, round4);
      var g7 := CalculateAndSetEngineering(g6, MinMul, "optmul", f, CalcMass, false, round4);
      var g8 := CalculateAndSetEngineering(g7, MaxMul, "optmul", f, CalcMass, false, round4);
      Get(g8, a) == if Formula(a) == CalcMass then Updated(Get(g, a), FeatureKey(a), f, CalcMass, false, round4)
                    else Get(g, a)
  {
    var g6 := CalculateAndSetEngineering(g, OptMul, "optmul", f, CalcMass, false, round4);
    var g7 := CalculateAndSetEngineering(g6, MinMul, "optmul", f, CalcMass, false, round4);
    if a != OptMul { CalculateAndSetFrame(g, OptMul, "optmul", f, CalcMass, false, round4, a); }
    if a != MinMul { CalculateAndSetFrame(g6, MinMul, "optmul", f, CalcMass, false, round4, a); }
    if a != MaxMul { CalculateAndSetFrame(g7, MaxMul, "optmul", f, CalcMass, false, round4, a); }
  }

  /** The last three update the resistances, honouring the percentage flag. */
  lemma ResistanceUpdatesAt(g: ShieldGenerator, f: map<string, real>, p: bool, round4: real -> real, a: Attr)
    ensures var g9 := CalculateAndSetEngineering(g, KinRes, "kinres", f, CalcRes, p, round4);
      var g10 := CalculateAndSetEngineering(g9, ThermRes, "thermres", f, CalcRes, p, round4);
      var g11 := CalculateAndSetEngineering(g10, ExplRes, "explres", f, CalcRes, p, round4);
      Get(g11, a) == if Formula(a) == CalcRes then Updated(Get(g, a), FeatureKey(a), f, CalcRes, p, round4)
                     else Get(g, a)
  {
    var g9 := CalculateAndSetEngineering(g, KinRes, "kinres", f, CalcRes, p, round4);
    var g10 := CalculateAndSetEngineering(g9, ThermRes, "thermres", f, CalcRes, p, round4);
    if a != KinRes { CalculateAndSetFrame(g, KinRes, "kinres", f, CalcRes, p, round4, a); }
    if a != ThermRes { CalculateAndSetFrame(g9, ThermRes, "thermres", f, CalcRes, p, round4, a); }
    if a != ExplRes { CalculateAndSetFrame(g10, ExplRes, "explres", f, CalcRes, p, round4, a); }
  }

  /** Only the resistances depend on the percentage flag. */
  lemma PercentageOnlyResistances(g: ShieldGenerator, features: map<string, real>, round4: real -> real)
    ensures forall a :: !HonoursPercentage(a) ==>
      Get(ApplyEngineering(g, features, true, round4), a) == Get(ApplyEngineering(g, features, false, round4), a)
  {
    ApplyEngineeringByAttr(g, features, true, round4);
    ApplyEngineeringByAttr(g, features, false, round4);
  }

  /** No feature, no change. */
  lemma NoFeatures(g: ShieldGenerator, isPercentage: bool, round4: real -> real)
    ensures ApplyEngineering(g, map[], isPercentage, round4) == g
  {
  }

  /** The generator a blueprint turns the prototype into. */
  function Engineered(prototype: ShieldGenerator, blueprint: Recipe, round4: real -> real): ShieldGenerator
  {
    ApplyEngineering(prototype.(engineeredSymbol := blueprint.symbol, engineeredName := blueprint.name),
                     blueprint.features, false, round4)
  }

  /** An experimental effect on top of an engineered generator. */
  function WithExperimental(engineered: ShieldGenerator, experimental: Recipe, round4: real -> real): ShieldGenerator
  {
    ApplyEngineering(engineered.(experimentalSymbol := experimental.symbol, experimentalName := experimental.name),
                     experimental.features, true, round4)
  }

  /** Variant (blueprint i, experimental j). */
  function Variant(prototype: ShieldGenerator, blueprint: Recipe, experimental: Recipe, round4: real -> real): ShieldGenerator
  {
    WithExperimental(Engineered(prototype, blueprint, round4), experimental, round4)
  }

  /** The two steps of the nested loop, as values. */
  function Blueprinted(prototype: ShieldGenerator, round4: real -> real): Recipe -> ShieldGenerator
  {
    blueprint => Engineered(prototype, blueprint, round4)
  }

  function Experimented(round4: real -> real): (ShieldGenerator, Recipe) -> ShieldGenerator
  {
    (engineered, experimental) => WithExperimental(engineered, experimental, round4)
  }

  /** All variants, blueprint by blueprint. */
  function Variations(prototype: ShieldGenerator, blueprints: seq<Recipe>, experimentals: seq<Recipe>,
                      round4: real -> real): seq<ShieldGenerator>
  {
    Grid(blueprints, experimentals, Blueprinted(prototype, round4), Experimented(round4))
  }

  /** `create_engineered_shield_generators`: one copy per blueprint, then one
      copy of that per experimental effect. */
  method CreateEngineeredShieldGenerators(prototype: ShieldGenerator, blueprints: seq<Recipe>,
                                          experimentals: seq<Recipe>, round4: real -> real)
    returns (variations: seq<ShieldGenerator>)
    ensures variations == Variations(prototype, blueprints, experimentals, round4)
  {
    variations := [];
    var i := 0;
    while i < |blueprints|
      invariant 0 <= i <= |blueprints|
      invariant variations == Variations(prototype, blueprints[..i], experimentals, round4)
    {
      var blueprint := blueprints[i];
      var engineeredSg := prototype.(engineeredSymbol := blueprint.symbol, engineeredName := blueprint.name);
      engineeredSg := ApplyEngineering(engineeredSg, blueprint.features, false, round4);
      assert engineeredSg == Blueprinted(prototype, round4)(blueprint);
      variations := AppendExperimentals(variations, engineeredSg, experimentals, round4);
      assert blueprints[..i + 1][..i] == blueprints[..i];
      i := i + 1;
    }
    assert blueprints[..i] == blueprints;
  }

  /** The inner loop of `create_engineered_shield_generators`: one copy of
      the engineered generator per experimental effect, appended in order. */
  method AppendExperimentals(variations: seq<ShieldGenerator>, engineeredSg: ShieldGenerator,
                             experimentals: seq<Recipe>, round4: real -> real)
    returns (r: seq<ShieldGenerator>)
    ensures r == variations + GridRow(engineeredSg, experimentals, Experimented(round4))
  {
    r := variations;
    var j := 0;
    while j < |experimentals|
      invariant 0 <= j <= |experimentals|
      invariant r == variations + GridRow(engineeredSg, experimentals[..j], Experimented(round4))
    {
      var experimental := experimentals[j];
      var expEngSg := engineeredSg.(experimentalSymbol := experimental.symbol,
                                    experimentalName := experimental.name);
      expEngSg := ApplyEngineering(expEngSg, experimental.features, true, round4);
      assert expEngSg == Experimented(round4)(engineeredSg, experimental);
      GridRowSnoc(engineeredSg, experimentals, Experimented(round4), j);
      r := r + [expEngSg];
      j := j + 1;
    }
    assert experimentals[..j] == experimentals;
  }

  /** |blueprints| * |experimentals| variants... */
  lemma VariationsLength(prototype: ShieldGenerator, blueprints: seq<Recipe>,
                         experimentals: seq<Recipe>, round4: real -> real)
    ensures |Variations(prototype, blueprints, experimentals, round4)| == |blueprints| * |experimentals|
  {
    GridLength(blueprints, experimentals, Blueprinted(prototype, round4), Experimented(round4));
  }

  /** ...in blueprint-major order: variant i * |experimentals| + j is
      blueprint i with experimental j. */
  lemma VariationAt(prototype: ShieldGenerator, blueprints: seq<Recipe>, experimentals: seq<Recipe>,
                    round4: real -> real, i: nat, j: nat)
    requires i < |blueprints| && j < |experimentals|
    ensures var vs, n := Variations(prototype, blueprints, experimentals, round4), i * |experimentals| + j;
      n < |vs| && vs[n] == Variant(prototype, blueprints[i], experimentals[j], round4)
  {
    var outer, inner := Blueprinted(prototype, round4), Experimented(round4);
    GridAt(blueprints, experimentals, outer, inner, i, j);
    var e := outer(blueprints[i]);
    assert e == Engineered(prototype, blueprints[i], round4);
    assert inner(e, experimentals[j]) == WithExperimental(e, experimentals[j], round4);
  }

  /** Every variant is named after its blueprint and its experimental effect
      and keeps the prototype's symbol, name, class and masses. */
  lemma VariantLabels(prototype: ShieldGenerator, blueprint: Recipe, experimental: Recipe, round4: real -> real)
    ensures var g := Variant(prototype, blueprint, experimental, round4);
      g.engineeredSymbol == blueprint.symbol && g.engineeredName == blueprint.name &&
      g.experimentalSymbol == experimental.symbol && g.experimentalName == experimental.name &&
      g.symbol == prototype.symbol && g.name == prototype.name && g.moduleClass == prototype.moduleClass &&
      g.minmass == prototype.minmass && g.optmass == prototype.optmass && g.maxmass == prototype.maxmass
  {
    var p1 := prototype.(engineeredSymbol := blueprint.symbol, engineeredName := blueprint.name);
    ApplyEngineeringByAttr(p1, blueprint.features, false, round4);
    var e := Engineered(prototype, blueprint, round4);
    var p2 := e.(experimentalSymbol := experimental.symbol, experimentalName := experimental.name);
    ApplyEngineeringByAttr(p2, experimental.features, true, round4);
  }

  /** The blueprint's features act as fractions on the prototype, then the
      experimental effect's as percentages on the blueprint's result. */
  lemma VariantValues(prototype: ShieldGenerator, blueprint: Recipe, experimental: Recipe, round4: real -> real)
    ensures forall a :: (Get(Variant(prototype, blueprint, experimental, round4), a) ==
      Updated(Updated(Get(prototype, a), FeatureKey(a), blueprint.features, Formula(a), false, round4),
              FeatureKey(a), experimental.features, Formula(a), HonoursPercentage(a), round4))
  {
    var p1 := prototype.(engineeredSymbol := blueprint.symbol, engineeredName := blueprint.name);
    var e := Engineered(prototype, blueprint, round4);
    var p2 := e.(experimentalSymbol := experimental.symbol, experimentalName := experimental.name);
    forall a ensures Get(Variant(prototype, blueprint, experimental, round4), a) ==
      Updated(Updated(Get(prototype, a), FeatureKey(a), blueprint.features, Formula(a), false, round4),
              FeatureKey(a), experimental.features, Formula(a), HonoursPercentage(a), round4)
    {
      ApplyEngineeringAt(p1, blueprint.features, false, round4, a);
      ApplyEngineeringAt(p2, experimental.features, true, round4, a);
      assert Get(p1, a) == Get(prototype, a);
      assert Get(p2, a) == Get(e, a);
    }
  }

  // ---------------------------------------------------------------------
  // Loadout export
  // ---------------------------------------------------------------------

  /** The attributes compared against the default generator, in the order
      of the export. */
  const ModifierAttrs: seq<Attr> := [Integrity, Power, OptMul, DistDraw, BrokenRegen, Regen, KinRes, ThermRes, ExplRes]

  function ModifierLabel(a: Attr): string
  {
    match a
    case Integrity => "Integrity"
    case Power => "PowerDraw"
    case OptMul => "ShieldGenStrength"
    case DistDraw => "EnergyPerRegen"
    case BrokenRegen => "BrokenRegenRate"
    case Regen => "RegenRate"
    case KinRes => "KineticResistance"
    case ThermRes => "ThermicResistance"
    case ExplRes => "ExplosiveResistance"
    case _ => ""
  }

  /** Strength and resistances are exported as percentages. */
  function ModifierScale(a: Attr): real
  {
    match a
    case OptMul => 100.0
    case KinRes => 100.0
    case ThermRes => 100.0
    case ExplRes => 100.0
    case _ => 1.0
  }

  /** Lower is better only for power draw and distributor draw. */
  function LessIsGood(a: Attr): int
  {
    match a
    case Power => 1
    case DistDraw => 1
    case _ => 0
  }

  /** The record that `helper` builds for one modifier. */
  datatype ModifierRecord = ModifierRecord(caption: string, value: real, originalValue: real, lessIsGood: int)

  /** `helper(label, def_value, value, less_is_good)`. */
  function Modifier(caption: string, defValue: real, value: real, lessIsGood: int): ModifierRecord
  {
    ModifierRecord(caption, value, defValue, lessIsGood)
  }

  /** The record as the dictionary of the loadout event. */
  function ModifierJson(m: ModifierRecord): Json
  {
    Obj(map["Label" := Str(m.caption), "Value" := Num(m.value), "OriginalValue" := Num(m.originalValue),
            "LessIsGood" := Int(m.lessIsGood)])
  }

  function ModifiersJson(ms: seq<ModifierRecord>): (r: seq<Json>)
    ensures |r| == |ms|
    ensures forall i :: 0 <= i < |ms| ==> r[i] == ModifierJson(ms[i])
  {
    seq(|ms|, i requires 0 <= i < |ms| => ModifierJson(ms[i]))
  }

  /** `helper` called with the attribute's label, its scaled default value,
      its scaled value and its LessIsGood flag. */
  function ModifierOf(g: ShieldGenerator, defaultSg: ShieldGenerator, a: Attr): ModifierRecord
  {
    Modifier(ModifierLabel(a), Get(defaultSg, a) * ModifierScale(a), Get(g, a) * ModifierScale(a), LessIsGood(a))
  }

  /** The modifier of one attribute, if g differs from the default on it. */
  function Entry(g: ShieldGenerator, defaultSg: ShieldGenerator, a: Attr): seq<ModifierRecord>
  {
    if Get(defaultSg, a) != Get(g, a) then [ModifierOf(g, defaultSg, a)] else []
  }

  /** One modifier per attribute of `attrs` on which g differs from the
      default, in the order of `attrs`. */
  function Modifiers(g: ShieldGenerator, defaultSg: ShieldGenerator, attrs: seq<Attr>): seq<ModifierRecord>
  {
    if attrs == [] then []
    else Modifiers(g, defaultSg, attrs[..|attrs| - 1]) + Entry(g, defaultSg, attrs[|attrs| - 1])
  }

  function ModifierTemplates(g: ShieldGenerator, defaultSg: ShieldGenerator): seq<ModifierRecord>
  {
    Modifiers(g, defaultSg, ModifierAttrs)
  }

  /** `_create_modifier_templates`: nine comparisons in a fixed order, each
      appending a modifier when the values differ. */
  method CreateModifierTemplates(g: ShieldGenerator, defaultSg: ShieldGenerator) returns (modifiers: seq<ModifierRecord>)
    ensures modifiers == ModifierTemplates(g, defaultSg)
  {
    modifiers := [];
    assert ModifierAttrs[..0] == [];
    modifiers := AppendIfChanged(modifiers, g, defaultSg, 0);
    modifiers := AppendIfChanged(modifiers, g, defaultSg, 1);
    modifiers := AppendIfChanged(modifiers, g, defaultSg, 2);
    modifiers := AppendIfChanged(modifiers, g, defaultSg, 3);
    modifiers := AppendIfChanged(modifiers, g, defaultSg, 4);
    modifiers := AppendIfChanged(modifiers, g, defaultSg, 5);
    modifiers := AppendIfChanged(modifiers, g, defaultSg, 6);
    modifiers := AppendIfChanged(modifiers, g, defaultSg, 7);
    modifiers := AppendIfChanged(modifiers, g, defaultSg, 8);
    assert ModifierAttrs[..9] == ModifierAttrs;
  }

  /** Comparison number k of `_create_modifier_templates`: `helper` applied
      to the label, the scaled default and the scaled value, appended when
      the unscaled values differ. */
  method AppendIfChanged(modifiers: seq<ModifierRecord>, g: ShieldGenerator, defaultSg: ShieldGenerator, k: nat)
    returns (r: seq<ModifierRecord>)
    requires k < |ModifierAttrs| && modifiers == Modifiers(g, defaultSg, ModifierAttrs[..k])
    ensures r == Modifiers(g, defaultSg, ModifierAttrs[..k + 1])
  {
    var a := ModifierAttrs[k];
    ModifiersSnoc(g, defaultSg, k);
    r := modifiers;
    if Get(defaultSg, a) != Get(g, a) {
      r := r + [ModifierOf(g, defaultSg, a)];
    } else {
      assert modifiers + Entry(g, defaultSg, a) == modifiers + [];
      assert modifiers + [] == modifiers;
    }
  }

  lemma ModifiersSnoc(g: ShieldGenerator, d: ShieldGenerator, k: nat)
    requires k < |ModifierAttrs|
    ensures Modifiers(g, d, ModifierAttrs[..k + 1]) == Modifiers(g, d, ModifierAttrs[..k]) + Entry(g, d, ModifierAttrs[k])
  {
    var p := ModifierAttrs[..k + 1];
    assert p[..|p| - 1] == ModifierAttrs[..k] && p[|p| - 1] == ModifierAttrs[k];
  }

  /** The entries of the table, attribute by attribute. */
  lemma EntryLiterals(g: ShieldGenerator, d: ShieldGenerator)
    ensures Entry(g, d, Integrity) == if d.integrity != g.integrity then [Modifier("Integrity", d.integrity, g.integrity, 0)] else []
    ensures Entry(g, d, Power) == if d.power != g.power then [Modifier("PowerDraw", d.power, g.power, 1)] else []
    ensures Entry(g, d, OptMul) == if d.optmul != g.optmul then [Modifier("ShieldGenStrength", d.optmul * 100.0, g.optmul * 100.0, 0)] else []
    ensures Entry(g, d, DistDraw) == if d.distdraw != g.distdraw then [Modifier("EnergyPerRegen", d.distdraw, g.distdraw, 1)] else []
    ensures Entry(g, d, BrokenRegen) == if d.brokenregen != g.brokenregen then [Modifier("BrokenRegenRate", d.brokenregen, g.brokenregen, 0)] else []
    ensures Entry(g, d, Regen) == if d.regen != g.regen then [Modifier("RegenRate", d.regen, g.regen, 0)] else []
    ensures Entry(g, d, KinRes) == if d.kinres != g.kinres then [Modifier("KineticResistance", d.kinres * 100.0, g.kinres * 100.0, 0)] else []
    ensures Entry(g, d, ThermRes) == if d.thermres != g.thermres then [Modifier("ThermicResistance", d.thermres * 100.0, g.thermres * 100.0, 0)] else []
    ensures Entry(g, d, ExplRes) == if d.explres != g.explres then [Modifier("ExplosiveResistance", d.explres * 100.0, g.explres * 100.0, 0)] else []
  {
  }

  lemma ModifierTemplatesUnfold(g: ShieldGenerator, d: ShieldGenerator)
    ensures ModifierTemplates(g, d) ==
      Entry(g, d, Integrity) + Entry(g, d, Power) + Entry(g, d, OptMul) + Entry(g, d, DistDraw) +
      Entry(g, d, BrokenRegen) + Entry(g, d, Regen) + Entry(g, d, KinRes) + Entry(g, d, ThermRes) +
      Entry(g, d, ExplRes)
  {
    var p1 := [Integrity];
    var p2 := p1 + [Power];
    var p3 := p2 + [OptMul];
    var p4 := p3 + [DistDraw];
    var p5 := p4 + [BrokenRegen];
    var p6 := p5 + [Regen];
    var p7 := p6 + [KinRes];
    var p8 := p7 + [ThermRes];
    var p9 := p8 + [ExplRes];
    assert p9 == ModifierAttrs;
    assert p1[..0] == [];
    assert p2[..1] == p1 && p3[..2] == p2 && p4[..3] == p3 && p5[..4] == p4;
    assert p6[..5] == p5 && p7[..6] == p6 && p8[..7] == p7 && p9[..8] == p8;
    assert Modifiers(g, d, p1) == Entry(g, d, Integrity);
    assert Modifiers(g, d, p2) == Modifiers(g, d, p1) + Entry(g, d, Power);
    assert Modifiers(g, d, p3) == Modifiers(g, d, p2) + Entry(g, d, OptMul);
    assert Modifiers(g, d, p4) == Modifiers(g, d, p3) + Entry(g, d, DistDraw);
    assert Modifiers(g, d, p5) == Modifiers(g, d, p4) + Entry(g, d, BrokenRegen);
    assert Modifiers(g, d, p6) == Modifiers(g, d, p5) + Entry(g, d, Regen);
    assert Modifiers(g, d, p7) == Modifiers(g, d, p6) + Entry(g, d, KinRes);
    assert Modifiers(g, d, p8) == Modifiers(g, d, p7) + Entry(g, d, ThermRes);
    assert Modifiers(g, d, p9) == Modifiers(g, d, p8) + Entry(g, d, ExplRes);
  }

  /** No modifier exactly when the generator matches the default on every
      exported attribute. */
  lemma {:induction false} ModifiersEmpty(g: ShieldGenerator, d: ShieldGenerator, attrs: seq<Attr>)
    ensures Modifiers(g, d, attrs) == [] <==> forall k :: 0 <= k < |attrs| ==> Get(d, attrs[k]) == Get(g, attrs[k])
  {
    if attrs != [] {
      var init := attrs[..|attrs| - 1];
      ModifiersEmpty(g, d, init);
      assert forall k :: 0 <= k < |init| ==> init[k] == attrs[k];
    }
  }

  /** Comparing a generator with itself exports no modifier. */
  lemma ModifierTemplatesIdentical(g: ShieldGenerator)
    ensures ModifierTemplates(g, g) == []
  {
    ModifiersEmpty(g, g, ModifierAttrs);
  }

  /** The slot name: "slot", the slot as two digits, "_size", the class. */
  function SlotName(slot: int, moduleClass: int): string
  {
    "slot" + Format02(slot) + "_size" + IntToString(moduleClass)
  }

  /** `create_loadout`: the module entry for the generator in slot `slot` of
      class `moduleClass`. */
  function CreateLoadout(g: ShieldGenerator, defaultSg: ShieldGenerator, slot: int, moduleClass: int)
    : (m: map<string, Json>)
    ensures m.Keys == {"Item", "Slot", "On", "Priority", "Engineering"}
    ensures m["Slot"] == Str(SlotName(slot, moduleClass))
    ensures m["Item"] == Str(g.symbol) && m["On"] == Bool(true) && m["Priority"] == Int(0)
    ensures m["Engineering"].Obj? && m["Engineering"].fields.Keys ==
      {"BlueprintName", "Level", "Quality", "Modifiers", "ExperimentalEffect"}
    ensures m["Engineering"].fields["BlueprintName"] == Str(g.engineeredSymbol)
    ensures m["Engineering"].fields["ExperimentalEffect"] == Str(g.experimentalSymbol)
    ensures m["Engineering"].fields["Level"] == Int(5) && m["Engineering"].fields["Quality"] == Int(1)
    ensures m["Engineering"].fields["Modifiers"] == Arr(ModifiersJson(ModifierTemplates(g, defaultSg)))
  {
    var engineering := map["BlueprintName" := Str(g.engineeredSymbol), "Level" := Int(5), "Quality" := Int(1),
                           "Modifiers" := Arr(ModifiersJson(ModifierTemplates(g, defaultSg))),
                           "ExperimentalEffect" := Str(g.experimentalSymbol)];
    map["Item" := Str(g.symbol), "Slot" := Str(SlotName(slot, moduleClass)),
        "On" := Bool(true), "Priority" := Int(0), "Engineering" := Obj(engineering)]
  }

  /** The slot name carries the slot and the class: for natural numbers the
      digits after "slot" read back as the slot and those after "_size" as
      the class. */
  lemma SlotNameReadable(slot: nat, moduleClass: nat)
    ensures var name := SlotName(slot, moduleClass);
      var digits := Pad2(slot);
      name[..4] == "slot" && name[4 + |digits|..4 + |digits| + 5] == "_size" &&
      ParseNat(name[4..4 + |digits|]) == slot &&
      ParseNat(name[4 + |digits| + 5..]) == moduleClass
  {
    var digits := Pad2(slot);
    var cls := NatToString(moduleClass);
    var name := "slot" + digits + "_size" + cls;
    assert name[4..4 + |digits|] == digits;
    assert name[4 + |digits| + 5..] == cls;
    Pad2RoundTrip(slot);
    ParseNatToString(moduleClass);
  }
}
