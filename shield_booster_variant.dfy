/** ShieldBoosterVariant.py: one engineered shield booster, its loadout entry,
    and how a stack of boosters combines. */
module ShieldBoosterVariants {
  import opened Wrappers
  import opened Json

  /** A booster. The three resistance fields hold damage multipliers
      (1 - resistance bonus), which is what stacking multiplies. */
  datatype ShieldBoosterVariant = ShieldBoosterVariant(
    engineering: string,
    experimental: string,
    shieldStrengthBonus: real,
    expResBonus: real,
    kinResBonus: real,
    thermResBonus: real,
    canSkip: bool,
    loadoutTemplate: Option<map<string, Json>>)

  /** The booster node of the data file, with its resistance bonuses as
      stored there. */
  datatype BoosterJson = BoosterJson(
    engineering: string,
    experimental: string,
    shieldStrengthBonus: real,
    expResBonus: real,
    kinResBonus: real,
    thermResBonus: real,
    canSkip: bool,
    loadoutTemplate: Option<map<string, Json>>)

  /** `create_from_json`: resistance bonuses become multipliers, the rest is
      copied. */
  function CreateFromJson(j: BoosterJson): (b: ShieldBoosterVariant)
    ensures b.expResBonus + j.expResBonus == 1.0
    ensures b.kinResBonus + j.kinResBonus == 1.0
    ensures b.thermResBonus + j.thermResBonus == 1.0
  {
    ShieldBoosterVariant(j.engineering, j.experimental, j.shieldStrengthBonus,
      1.0 - j.expResBonus, 1.0 - j.kinResBonus, 1.0 - j.thermResBonus,
      j.canSkip, j.loadoutTemplate)
  }

  /** The node a booster was loaded from. */
  function ToJson(b: ShieldBoosterVariant): BoosterJson
  {
    BoosterJson(b.engineering, b.experimental, b.shieldStrengthBonus,
      1.0 - b.expResBonus, 1.0 - b.kinResBonus, 1.0 - b.thermResBonus,
      b.canSkip, b.loadoutTemplate)
  }

  /** Loading loses nothing: the node can be recovered from the booster, and
      the booster from the node. */
  lemma CreateFromJsonRoundTrip(j: BoosterJson, b: ShieldBoosterVariant)
    ensures ToJson(CreateFromJson(j)) == j
    ensures CreateFromJson(ToJson(b)) == b
  {
  }

  /** `get_loadout_template_slot`: a copy of the template whose "Slot" names
      the utility hardpoint; an empty dict when the template is missing or
      empty. */
  function GetLoadoutTemplateSlot(b: ShieldBoosterVariant, slot: int): (m: map<string, Json>)
    ensures b.loadoutTemplate.None? || b.loadoutTemplate.value == map[] ==> m == map[]
    ensures b.loadoutTemplate.Some? && b.loadoutTemplate.value != map[] ==>
      m.Keys == b.loadoutTemplate.value.Keys + {"Slot"} &&
      m["Slot"] == Str("tinyhardpoint" + IntToString(slot)) &&
      forall k :: k in b.loadoutTemplate.value && k != "Slot" ==> m[k] == b.loadoutTemplate.value[k]
  {
    match b.loadoutTemplate
    case None => map[]
    case Some(t) => if t == map[] then map[] else t["Slot" := Str("tinyhardpoint" + IntToString(slot))]
  }

  // ---------------------------------------------------------------------
  // calculate_booster_bonuses
  // ---------------------------------------------------------------------

  /** exp_modifier, kin_modifier, therm_modifier, hitpoint_bonus. */
  datatype Bonuses = Bonuses(exp: real, kin: real, therm: real, hitpoints: real)

  datatype Resistance = Explosive | Kinetic | Thermal

  function Multiplier(b: ShieldBoosterVariant, r: Resistance): real
  {
    match r
    case Explosive => b.expResBonus
    case Kinetic => b.kinResBonus
    case Thermal => b.thermResBonus
  }

  /** The multiplier of one resistance, as a function of the booster. */
  function Factor(r: Resistance): ShieldBoosterVariant -> real
  {
    b => Multiplier(b, r)
  }

  /** The product of the factors of a list, in list order. */
  function ProductOf<T>(xs: seq<T>, f: T -> real): real
  {
    if xs == [] then 1.0 else ProductOf(xs[..|xs| - 1], f) * f(xs[|xs| - 1])
  }

  /** The product of the multipliers of one resistance, in list order. */
  function Product(bs: seq<ShieldBoosterVariant>, r: Resistance): real
  {
    ProductOf(bs, Factor(r))
  }

  /** The sum of the shield strength bonuses, in list order. */
  function StrengthSum(bs: seq<ShieldBoosterVariant>): real
  {
    if bs == [] then 0.0 else StrengthSum(bs[..|bs| - 1]) + bs[|bs| - 1].shieldStrengthBonus
  }

  /** Diminishing returns: a multiplier below 0.7 keeps only half of its
      distance below 0.7. */
  function Remap(p: real): (q: real)
    ensures p >= 0.7 ==> q == p
    ensures p < 0.7 ==> p < q < 0.7
    ensures 0.7 - q == if p < 0.7 then (0.7 - p) / 2.0 else 0.7 - p
  {
    if p < 0.7 then 0.7 - (0.7 - p) / 2.0 else p
  }

  /** The remap keeps the order of multipliers strictly. */
  lemma RemapStrictlyIncreasing(p: real, q: real)
    requires p < q
    ensures Remap(p) < Remap(q)
  {
  }

  /** The combined bonuses of a stack of boosters. */
  function BoosterBonuses(bs: seq<ShieldBoosterVariant>): Bonuses
  {
    Bonuses(Remap(Product(bs, Explosive)), Remap(Product(bs, Kinetic)),
            Remap(Product(bs, Thermal)), 1.0 + StrengthSum(bs))
  }

  /** `s[x]` with Python's negative indices counting from the end. */
  function PyIndex<T>(s: seq<T>, x: int): T
    requires -|s| <= x < |s|
  {
    if x >= 0 then s[x] else s[|s| + x]
  }

  predicate ValidIndices<T>(s: seq<T>, idx: seq<int>)
  {
    forall i :: 0 <= i < |idx| ==> -|s| <= idx[i] < |s|
  }

  /** The boosters the index mode picks: `[shield_boosters[x] for x in
      booster_loadout]` for a non-empty index list, the whole list for an
      empty or missing one. */
  function Selected(all: seq<ShieldBoosterVariant>, loadout: Option<seq<int>>): (bs: seq<ShieldBoosterVariant>)
    requires loadout.Some? ==> ValidIndices(all, loadout.value)
    ensures loadout.None? || loadout.value == [] ==> bs == all
    ensures loadout.Some? && loadout.value != [] ==>
      |bs| == |loadout.value| && forall i :: 0 <= i < |bs| ==> bs[i] == PyIndex(all, loadout.value[i])
  {
    match loadout
    case None => all
    case Some(idx) =>
      if idx == [] then all
      else seq(|idx|, i requires 0 <= i < |idx| => PyIndex(all, idx[i]))
  }

  /** `calculate_booster_bonuses`: accumulate products and the hitpoint sum
      over the selected boosters, then remap. */
  method CalculateBoosterBonuses(shieldBoosters: seq<ShieldBoosterVariant>, boosterLoadout: Option<seq<int>>)
    returns (r: Bonuses)
    requires boosterLoadout.Some? ==> ValidIndices(shieldBoosters, boosterLoadout.value)
    ensures r == BoosterBonuses(Selected(shieldBoosters, boosterLoadout))
  {
    var expModifier := 1.0;
    var kinModifier := 1.0;
    var thermModifier := 1.0;
    var hitpointBonus := 1.0;
    var boosters := Selected(shieldBoosters, boosterLoadout);
    var i := 0;
    while i < |boosters|
      invariant 0 <= i <= |boosters|
      invariant expModifier == Product(boosters[..i], Explosive)
      invariant kinModifier == Product(boosters[..i], Kinetic)
      invariant thermModifier == Product(boosters[..i], Thermal)
      invariant hitpointBonus == 1.0 + StrengthSum(boosters[..i])
    {
      assert boosters[..i + 1][..i] == boosters[..i];
      var booster := boosters[i];
      expModifier := expModifier * booster.expResBonus;
      kinModifier := kinModifier * booster.kinResBonus;
      thermModifier := thermModifier * booster.thermResBonus;
      hitpointBonus := hitpointBonus + booster.shieldStrengthBonus;
      i := i + 1;
    }
    assert boosters[..i] == boosters;
    if expModifier < 0.7 {
      expModifier := 0.7 - (0.7 - expModifier) / 2.0;
    }
    if kinModifier < 0.7 {
      kinModifier := 0.7 - (0.7 - kinModifier) / 2.0;
    }
    if thermModifier < 0.7 {
      thermModifier := 0.7 - (0.7 - thermModifier) / 2.0;
    }
    r := Bonuses(expModifier, kinModifier, thermModifier, hitpointBonus);
  }

  /** No boosters: no change at all. */
  lemma NoBoosters()
    ensures BoosterBonuses([]) == Bonuses(1.0, 1.0, 1.0, 1.0)
  {
  }

  lemma {:induction false} ProductAppend<T>(a: seq<T>, b: seq<T>, f: T -> real)
    ensures ProductOf(a + b, f) == ProductOf(a, f) * ProductOf(b, f)
    decreases |b|
  {
    if b == [] {
      assert a + b == a;
    } else {
      var b0 := b[..|b| - 1];
      assert (a + b)[..|a + b| - 1] == a + b0;
      ProductAppend(a, b0, f);
      Associate(ProductOf(a, f), ProductOf(b0, f), f(b[|b| - 1]));
    }
  }

  lemma Associate(x: real, y: real, z: real)
    ensures x * y * z == x * (y * z)
  {
  }

  lemma {:induction false} StrengthSumAppend(a: seq<ShieldBoosterVariant>, b: seq<ShieldBoosterVariant>)
    ensures StrengthSum(a + b) == StrengthSum(a) + StrengthSum(b)
    decreases |b|
  {
    if b == [] {
      assert a + b == a;
    } else {
      assert (a + b)[..|a + b| - 1] == a + b[..|b| - 1];
      StrengthSumAppend(a, b[..|b| - 1]);
    }
  }

  /** The order of the boosters does not matter: any rearrangement of the
      stack gives the same bonuses. */
  lemma {:induction false} BonusesPermutation(a: seq<ShieldBoosterVariant>, b: seq<ShieldBoosterVariant>)
    requires multiset(a) == multiset(b)
    ensures BoosterBonuses(a) == BoosterBonuses(b)
  {
    ProductPermutation(a, b, Factor(Explosive));
    ProductPermutation(a, b, Factor(Kinetic));
    ProductPermutation(a, b, Factor(Thermal));
    StrengthSumPermutation(a, b);
  }

  /** Where the last element of a sits in its rearrangement b. */
  lemma TakeLast<T>(a: seq<T>, b: seq<T>) returns (b1: seq<T>, b2: seq<T>)
    requires a != [] && multiset(a) == multiset(b)
    ensures b == b1 + [a[|a| - 1]] + b2
    ensures multiset(a[..|a| - 1]) == multiset(b1 + b2)
  {
    var x := a[|a| - 1];
    var a0 := a[..|a| - 1];
    assert a == a0 + [x];
    assert multiset(a) == multiset(a0) + multiset{x};
    assert x in multiset(b);
    var k :| 0 <= k < |b| && b[k] == x;
    b1, b2 := b[..k], b[k + 1..];
    assert b == b1 + [x] + b2;
    MultisetMiddle(b1, x, b2);
    Cancel(multiset(a0), multiset(b1 + b2), multiset{x});
  }

  lemma Cancel<T>(p: multiset<T>, q: multiset<T>, m: multiset<T>)
    requires p + m == q + m
    ensures p == q
  {
    assert p == (p + m) - m;
    assert q == (q + m) - m;
  }

  lemma MultisetMiddle<T>(b1: seq<T>, x: T, b2: seq<T>)
    ensures multiset(b1 + [x] + b2) == multiset(b1 + b2) + multiset{x}
  {
    assert multiset(b1 + [x] + b2) == multiset(b1) + multiset{x} + multiset(b2);
  }

  lemma {:induction false} ProductPermutation<T>(a: seq<T>, b: seq<T>, f: T -> real)
    requires multiset(a) == multiset(b)
    ensures ProductOf(a, f) == ProductOf(b, f)
    decreases |a|
  {
    if a == [] {
      assert |b| == |multiset(b)| == 0;
    } else {
      var x := a[|a| - 1];
      var b1, b2 := TakeLast(a, b);
      ProductPermutation(a[..|a| - 1], b1 + b2, f);
      ProductMiddle(b1, x, b2, f);
    }
  }

  /** Taking one element out of the middle of a list divides its factor out. */
  lemma {:induction false} ProductMiddle<T>(b1: seq<T>, x: T, b2: seq<T>, f: T -> real)
    ensures ProductOf(b1 + [x] + b2, f) == ProductOf(b1 + b2, f) * f(x)
    decreases |b2|
  {
    if b2 == [] {
      assert b1 + [x] + b2 == b1 + [x] && b1 + b2 == b1;
      ProductSnoc(b1, x, f);
    } else {
      var c := b2[..|b2| - 1];
      var y := b2[|b2| - 1];
      assert b1 + [x] + b2 == (b1 + [x] + c) + [y];
      assert b1 + b2 == (b1 + c) + [y];
      ProductSnoc(b1 + [x] + c, y, f);
      ProductSnoc(b1 + c, y, f);
      ProductMiddle(b1, x, c, f);
      var p := ProductOf(b1 + c, f);
      calc {
        ProductOf(b1 + [x] + b2, f);
      ==
        ProductOf(b1 + [x] + c, f) * f(y);
      ==
        p * f(x) * f(y);
      == { Swap(p, f(x), f(y)); }
        p * f(y) * f(x);
      ==
        ProductOf(b1 + b2, f) * f(x);
      }
    }
  }

  lemma ProductSnoc<T>(b: seq<T>, x: T, f: T -> real)
    ensures ProductOf(b + [x], f) == ProductOf(b, f) * f(x)
  {
    assert (b + [x])[..|b|] == b;
  }

  lemma {:induction false} StrengthSumPermutation(a: seq<ShieldBoosterVariant>, b: seq<ShieldBoosterVariant>)
    requires multiset(a) == multiset(b)
    ensures StrengthSum(a) == StrengthSum(b)
    decreases |a|
  {
    if a == [] {
      assert |b| == |multiset(b)| == 0;
    } else {
      var x := a[|a| - 1];
      var b1, b2 := TakeLast(a, b);
      StrengthSumPermutation(a[..|a| - 1], b1 + b2);
      StrengthSumAppend(b1 + [x], b2);
      StrengthSumAppend(b1, [x]);
      StrengthSumAppend(b1, b2);
      assert [x][..0] == [];
    }
  }

  /** Two neighbouring factors commute. */
  lemma Swap(p: real, a: real, b: real)
    ensures p * a * b == p * b * a
  {
  }

  /** The boosters an index list picks, one per index, in order. */
  function Picked(all: seq<ShieldBoosterVariant>, idx: seq<int>): (bs: seq<ShieldBoosterVariant>)
    requires ValidIndices(all, idx)
    ensures |bs| == |idx| && forall i :: 0 <= i < |idx| ==> bs[i] == PyIndex(all, idx[i])
  {
    if idx == [] then [] else Picked(all, idx[..|idx| - 1]) + [PyIndex(all, idx[|idx| - 1])]
  }

  lemma PickedAppend(all: seq<ShieldBoosterVariant>, a: seq<int>, b: seq<int>)
    requires ValidIndices(all, a) && ValidIndices(all, b)
    ensures ValidIndices(all, a + b) && Picked(all, a + b) == Picked(all, a) + Picked(all, b)
  {
    assert forall i :: 0 <= i < |a| ==> (a + b)[i] == a[i];
    assert forall i :: 0 <= i < |b| ==> (a + b)[|a| + i] == b[i];
  }

  lemma ValidSplit(all: seq<ShieldBoosterVariant>, b1: seq<int>, x: int, b2: seq<int>)
    requires ValidIndices(all, b1 + [x] + b2)
    ensures ValidIndices(all, b1) && ValidIndices(all, [x]) && ValidIndices(all, b2)
  {
    var b := b1 + [x] + b2;
    assert forall i :: 0 <= i < |b1| ==> b1[i] == b[i];
    assert x == b[|b1|];
    assert forall i :: 0 <= i < |b2| ==> b2[i] == b[|b1| + 1 + i];
  }

  /** Picking from a list with one index in the middle picks that index's
      booster in the middle. */
  lemma PickedMiddle(all: seq<ShieldBoosterVariant>, b1: seq<int>, x: int, b2: seq<int>)
    requires ValidIndices(all, b1 + [x] + b2)
    ensures ValidIndices(all, b1 + b2) && -|all| <= x < |all|
    ensures multiset(Picked(all, b1 + [x] + b2)) == multiset(Picked(all, b1 + b2)) + multiset{PyIndex(all, x)}
  {
    ValidSplit(all, b1, x, b2);
    PickedAppend(all, b1, [x]);
    PickedAppend(all, b1 + [x], b2);
    PickedAppend(all, b1, b2);
    var y := PyIndex(all, x);
    assert Picked(all, [x]) == [y];
    MultisetMiddle(Picked(all, b1), y, Picked(all, b2));
  }

  /** Index lists holding the same indices pick the same boosters, up to
      order. */
  lemma {:induction false} PickedPermutation(all: seq<ShieldBoosterVariant>, a: seq<int>, b: seq<int>)
    requires ValidIndices(all, a) && ValidIndices(all, b) && multiset(a) == multiset(b)
    ensures multiset(Picked(all, a)) == multiset(Picked(all, b))
    decreases |a|
  {
    if a == [] {
      assert |b| == |multiset(b)| == 0;
    } else {
      var x := a[|a| - 1];
      var a0 := a[..|a| - 1];
      var b1, b2 := TakeLast(a, b);
      assert a == a0 + [x] + [];
      PickedMiddle(all, a0, x, []);
      PickedMiddle(all, b1, x, b2);
      assert a0 + [] == a0;
      PickedPermutation(all, a0, b1 + b2);
    }
  }

  /** In index mode the bonuses depend only on which indices are listed
      and how often, not on their order. */
  lemma IndexOrderIrrelevant(all: seq<ShieldBoosterVariant>, a: seq<int>, b: seq<int>)
    requires ValidIndices(all, a) && ValidIndices(all, b) && multiset(a) == multiset(b)
    ensures BoosterBonuses(Selected(all, Some(a))) == BoosterBonuses(Selected(all, Some(b)))
  {
    if a == [] {
      assert |b| == |multiset(b)| == 0;
    } else {
      assert b != [] by { assert a[0] in multiset(b); }
      assert Selected(all, Some(a)) == Picked(all, a);
      assert Selected(all, Some(b)) == Picked(all, b);
      PickedPermutation(all, a, b);
      BonusesPermutation(Picked(all, a), Picked(all, b));
    }
  }
}
