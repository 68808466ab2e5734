/** The part of `import_loadout` that reads a loadout event's modules: which
    utility slots the event occupies, which class of shield generator it
    fits, which internal slots it fills, and which modules (boosters and
    the shield generator) are taken out of the ship's template. */
module LoadoutImport {
  import opened Wrappers
  import opened Json
  import opened Collections

  // ---------------------------------------------------------------------
  // String tests of the event's slot and item names
  // ---------------------------------------------------------------------

  /** `str.lower` on ASCII letters. */
  function LowerChar(c: char): char
  {
    if 'A' <= c <= 'Z' then (c as int + 32) as char else c
  }

  function Lower(s: string): (r: string)
    ensures |r| == |s|
  {
    if s == [] then [] else [LowerChar(s[0])] + Lower(s[1..])
  }

  predicate StartsWith(s: string, prefix: string)
  {
    prefix == [] || (s != [] && s[0] == prefix[0] && StartsWith(s[1..], prefix[1..]))
  }

  predicate IsDigit(c: char)
  {
    '0' <= c <= '9'
  }

  /** `int(s[-1:])`: the value of the last character, when it is a digit. */
  function LastDigit(s: string): (d: Option<int>)
    ensures d.Some? <==> |s| > 0 && IsDigit(s[|s| - 1])
    ensures d.Some? ==> 0 <= d.value < 10 && Digit(d.value) == s[|s| - 1]
  {
    if |s| > 0 && IsDigit(s[|s| - 1]) then Some(DigitValue(s[|s| - 1])) else None
  }

  /** `re.match("slot[0-9]{2}_size[0-9]", s)`: the name starts with "slot",
      two digits, "_size" and a digit. */
  predicate InternalSlotName(s: string)
  {
    |s| >= 12 && s[..4] == "slot" && IsDigit(s[4]) && IsDigit(s[5]) && s[6..11] == "_size" && IsDigit(s[11])
  }

  /** `int(s[4:6])` of an internal slot name. */
  function SlotNumber(s: string): int
    requires InternalSlotName(s)
  {
    10 * DigitValue(s[4]) + DigitValue(s[5])
  }

  // ---------------------------------------------------------------------
  // The modules of a loadout event
  // ---------------------------------------------------------------------

  /** A module entry `{"Slot": ..., "Item": ..., ...}`. */
  predicate WellFormedModule(m: Json)
  {
    m.Obj? && "Slot" in m.fields && m.fields["Slot"].Str? && "Item" in m.fields && m.fields["Item"].Str?
  }

  /** A loadout event as the import reads it: a ship symbol, a list of
      modules, and optionally a ship name and ident, all strings. */
  predicate WellFormedEvent(event: map<string, Json>)
  {
    "Ship" in event && event["Ship"].Str? &&
    "Modules" in event && event["Modules"].Arr? &&
    (forall i :: 0 <= i < |event["Modules"].items| ==> WellFormedModule(event["Modules"].items[i])) &&
    ("ShipName" in event ==> event["ShipName"].Str?) &&
    ("ShipIdent" in event ==> event["ShipIdent"].Str?)
  }

  function Field(m: Json, key: string): string
  {
    if m.Obj? && key in m.fields && m.fields[key].Str? then m.fields[key].s else ""
  }

  function SlotOf(m: Json): string
  {
    Field(m, "Slot")
  }

  function ItemOf(m: Json): string
  {
    Field(m, "Item")
  }

  predicate InUtilitySlot(m: Json)
  {
    StartsWith(Lower(SlotOf(m)), "tinyhardpoint")
  }

  /** A shield booster in a utility slot. */
  predicate IsBooster(m: Json)
  {
    InUtilitySlot(m) && StartsWith(Lower(ItemOf(m)), "hpt_shieldbooster_size0")
  }

  /** Anything else in a utility slot occupies it. */
  predicate OccupiesUtility(m: Json)
  {
    InUtilitySlot(m) && !IsBooster(m)
  }

  /** A shield generator outside the utility slots. */
  predicate IsGenerator(m: Json)
  {
    !InUtilitySlot(m) && StartsWith(Lower(ItemOf(m)), "int_shieldgenerator_size")
  }

  /** Any other module in a numbered internal slot occupies that slot. */
  predicate OccupiesInternal(m: Json)
  {
    !InUtilitySlot(m) && !IsGenerator(m) && InternalSlotName(Lower(SlotOf(m)))
  }

  /** The modules the import takes out of the template. */
  predicate Removed(m: Json)
  {
    IsBooster(m) || IsGenerator(m)
  }

  /** The slot digit the import reads is there. */
  predicate DigitsPresent(m: Json)
  {
    (OccupiesUtility(m) || IsGenerator(m)) ==> LastDigit(SlotOf(m)).Some?
  }

  /** The utility slot numbers the modules occupy, in order. */
  function Occupied(mods: seq<Json>): seq<int>
  {
    if mods == [] then []
    else
      (if OccupiesUtility(mods[0]) && LastDigit(SlotOf(mods[0])).Some? then [LastDigit(SlotOf(mods[0])).value] else [])
      + Occupied(mods[1..])
  }

  /** The internal slot numbers the modules occupy. */
  function InternalSlots(mods: seq<Json>): set<int>
  {
    if mods == [] then {}
    else (if OccupiesInternal(mods[0]) then {SlotNumber(Lower(SlotOf(mods[0])))} else {}) + InternalSlots(mods[1..])
  }

  /** The modules that pass a test, in order. */
  function Filter(mods: seq<Json>, pass: Json -> bool): seq<Json>
  {
    if mods == [] then [] else (if pass(mods[0]) then [mods[0]] else []) + Filter(mods[1..], pass)
  }

  predicate Retained(m: Json)
  {
    !Removed(m)
  }

  /** The modules taken out, in order. */
  function Dropped(mods: seq<Json>): seq<Json>
  {
    Filter(mods, Removed)
  }

  /** The modules left in the template, in order. */
  function Kept(mods: seq<Json>): seq<Json>
  {
    Filter(mods, Retained)
  }

  /** The modules that pass a test are those of the list that pass it, and a
      test and its negation split the list between them. */
  lemma {:induction false} FilterExactly(mods: seq<Json>, pass: Json -> bool, fail: Json -> bool)
    requires forall m :: fail(m) == !pass(m)
    ensures forall m :: m in Filter(mods, pass) <==> m in mods && pass(m)
    ensures |Filter(mods, pass)| + |Filter(mods, fail)| == |mods|
  {
    if mods != [] {
      FilterExactly(mods[1..], pass, fail);
      assert mods == [mods[0]] + mods[1..];
    }
  }

  /** The kept modules are exactly the ones not taken out, and together the
      two lists account for every module. */
  lemma KeptExactly(mods: seq<Json>)
    ensures forall m :: m in Kept(mods) <==> m in mods && !Removed(m)
    ensures forall m :: m in Dropped(mods) <==> m in mods && Removed(m)
    ensures |Kept(mods)| + |Dropped(mods)| == |mods|
  {
    FilterExactly(mods, Removed, Retained);
    FilterExactly(mods, Retained, Removed);
  }

  // ---------------------------------------------------------------------
  // Refitting the ship, module by module
  // ---------------------------------------------------------------------

  /** Why a module cannot be read: `int()` of a slot name that does not end
      in a digit, or `list.remove` of a utility slot that is not free. */
  datatype FitError = SlotDigitMissing | SlotNotFree

  /** What the loop over the modules updates: the free utility slots, the
      highest internal class, the internal slot layout and the modules to
      remove. */
  datatype Fitting = Fitting(free: seq<int>, highest: int, layout: Items<int>, remove: seq<Json>)

  /** One pass of the loop over the event's modules. */
  function Step(f: Fitting, m: Json): Result<Fitting, FitError>
  {
    if InUtilitySlot(m) then
      if IsBooster(m) then Ok(f.(remove := f.remove + [m]))
      else
        match LastDigit(SlotOf(m))
        case None => Err(SlotDigitMissing)
        case Some(d) => if d in f.free then Ok(f.(free := RemoveFirst(f.free, d))) else Err(SlotNotFree)
    else if IsGenerator(m) then
      match LastDigit(SlotOf(m))
      case None => Err(SlotDigitMissing)
      case Some(d) => Ok(f.(highest := d, remove := f.remove + [m]))
    else if InternalSlotName(Lower(SlotOf(m))) then
      var n := SlotNumber(Lower(SlotOf(m)));
      if HasKey(f.layout, n) then Ok(f.(layout := Pop(f.layout, n))) else Ok(f)
    else Ok(f)
  }

  /** The loop over the event's modules, stopping at the first error. */
  function Fit(f: Fitting, mods: seq<Json>): Result<Fitting, FitError>
    decreases |mods|
  {
    if mods == [] then Ok(f)
    else
      match Step(f, mods[0])
      case Err(e) => Err(e)
      case Ok(g) => Fit(g, mods[1..])
  }

  /** The loop of `import_loadout` over the modules. */
  method FitModules(f0: Fitting, mods: seq<Json>) returns (r: Result<Fitting, FitError>)
    ensures r == Fit(f0, mods)
  {
    var f := f0;
    var i := 0;
    while i < |mods|
      invariant 0 <= i <= |mods|
      invariant Fit(f0, mods) == Fit(f, mods[i..])
    {
      var m := mods[i];
      assert mods[i..][1..] == mods[i + 1..];
      if StartsWith(Lower(SlotOf(m)), "tinyhardpoint") {
        if StartsWith(Lower(ItemOf(m)), "hpt_shieldbooster_size0") {
          f := f.(remove := f.remove + [m]);
        } else {
          var d := LastDigit(SlotOf(m));
          if d.None? {
            return Err(SlotDigitMissing);
          }
          if d.value !in f.free {
            return Err(SlotNotFree);
          }
          f := f.(free := RemoveFirst(f.free, d.value));
        }
      } else if StartsWith(Lower(ItemOf(m)), "int_shieldgenerator_size") {
        var d := LastDigit(SlotOf(m));
        if d.None? {
          return Err(SlotDigitMissing);
        }
        f := f.(highest := d.value, remove := f.remove + [m]);
      } else if InternalSlotName(Lower(SlotOf(m))) {
        var n := SlotNumber(Lower(SlotOf(m)));
        if HasKey(f.layout, n) {
          f := f.(layout := Pop(f.layout, n));
        }
      }
      i := i + 1;
    }
    assert mods[i..] == [];
    r := Ok(f);
  }

  /** `{x} + b <= a` exactly when x is in a and b fits in what is left. */
  lemma MultisetTake<T>(x: T, a: multiset<T>, b: multiset<T>)
    ensures multiset{x} + b <= a <==> x in a && b <= a - multiset{x}
  {
    if multiset{x} + b <= a {
      forall y ensures b[y] <= (a - multiset{x})[y] {
        assert (multiset{x} + b)[y] <= a[y];
      }
    }
    if x in a && b <= a - multiset{x} {
      forall y ensures (multiset{x} + b)[y] <= a[y] {
        assert b[y] <= (a - multiset{x})[y];
      }
    }
  }

  /** When one pass succeeds. */
  lemma StepOk(f: Fitting, m: Json)
    ensures Step(f, m).Ok? <==> DigitsPresent(m) && (OccupiesUtility(m) ==> LastDigit(SlotOf(m)).value in f.free)
  {
  }

  /** What one successful pass does to the fields. */
  lemma StepFields(f: Fitting, m: Json)
    requires Step(f, m).Ok?
    ensures Step(f, m).value.remove == f.remove + (if Removed(m) then [m] else [])
    ensures OccupiesUtility(m) ==> (LastDigit(SlotOf(m)).Some? && LastDigit(SlotOf(m)).value in f.free &&
      Step(f, m).value.free == RemoveFirst(f.free, LastDigit(SlotOf(m)).value))
    ensures !OccupiesUtility(m) ==> Step(f, m).value.free == f.free
    ensures IsGenerator(m) ==> LastDigit(SlotOf(m)) == Some(Step(f, m).value.highest)
    ensures !IsGenerator(m) ==> Step(f, m).value.highest == f.highest
  {
  }

  /** One pass frees the internal slot its module occupies, and no other. */
  lemma StepLayout(f: Fitting, m: Json)
    requires Step(f, m).Ok?
    ensures forall e :: e in Step(f, m).value.layout <==>
      e in f.layout && !(OccupiesInternal(m) && e.0 == SlotNumber(Lower(SlotOf(m))))
  {
    var g := Step(f, m).value;
    if OccupiesInternal(m) {
      var n := SlotNumber(Lower(SlotOf(m)));
      if HasKey(f.layout, n) {
        assert g.layout == Pop(f.layout, n);
        PopMembers(f.layout, n);
      } else {
        assert g.layout == f.layout;
        AbsentKey(f.layout, n);
      }
    } else {
      assert g.layout == f.layout;
    }
  }

  /** Every slot name the modules need read ends in a digit, and the
      utility slots they take fit, with multiplicity, in the free list. */
  ghost predicate Fits(free: seq<int>, mods: seq<Json>)
  {
    (forall i :: 0 <= i < |mods| ==> DigitsPresent(mods[i])) && multiset(Occupied(mods)) <= multiset(free)
  }

  /** The modules fit when the first one's digit is there and the rest fit
      in what it leaves free. */
  lemma FitsCons(free: seq<int>, mods: seq<Json>)
    requires mods != []
    ensures Fits(free, mods) <==>
      DigitsPresent(mods[0]) &&
      (OccupiesUtility(mods[0]) ==>
        LastDigit(SlotOf(mods[0])).value in free && Fits(RemoveFirst(free, LastDigit(SlotOf(mods[0])).value), mods[1..])) &&
      (!OccupiesUtility(mods[0]) ==> Fits(free, mods[1..]))
  {
    var m := mods[0];
    var rest := mods[1..];
    DigitsCons(mods);
    if OccupiesUtility(m) && LastDigit(SlotOf(m)).Some? {
      var d := LastDigit(SlotOf(m)).value;
      assert multiset(Occupied(mods)) == multiset{d} + multiset(Occupied(rest));
      MultisetTake(d, multiset(free), multiset(Occupied(rest)));
    } else {
      assert Occupied(mods) == Occupied(rest);
    }
  }

  lemma DigitsCons(mods: seq<Json>)
    requires mods != []
    ensures (forall i :: 0 <= i < |mods| ==> DigitsPresent(mods[i])) <==>
      DigitsPresent(mods[0]) && forall i :: 0 <= i < |mods| - 1 ==> DigitsPresent(mods[1..][i])
  {
    assert forall i :: 1 <= i < |mods| ==> mods[i] == mods[1..][i - 1];
  }

  /** The loop succeeds exactly when every slot name it reads ends in a
      digit and every utility slot it takes is free (counted with
      multiplicity). */
  lemma {:induction false} FitSucceeds(f: Fitting, mods: seq<Json>)
    ensures Fit(f, mods).Ok? <==>
      (forall i :: 0 <= i < |mods| ==> DigitsPresent(mods[i])) && multiset(Occupied(mods)) <= multiset(f.free)
    decreases |mods|
  {
    assert Fits(f.free, mods) <==>
      (forall i :: 0 <= i < |mods| ==> DigitsPresent(mods[i])) && multiset(Occupied(mods)) <= multiset(f.free);
    if mods != [] {
      FitsCons(f.free, mods);
      StepOk(f, mods[0]);
      if Step(f, mods[0]).Ok? {
        var g := Step(f, mods[0]).value;
        assert Fit(f, mods) == Fit(g, mods[1..]);
        StepFields(f, mods[0]);
        FitSucceeds(g, mods[1..]);
      }
    }
  }

  /** A successful loop has a successful first pass and goes on from it. */
  lemma FitCons(f: Fitting, mods: seq<Json>)
    requires mods != [] && Fit(f, mods).Ok?
    ensures Step(f, mods[0]).Ok? && Fit(f, mods) == Fit(Step(f, mods[0]).value, mods[1..])
  {
  }

  lemma MinusPlus<T>(a: multiset<T>, b: multiset<T>, c: multiset<T>)
    ensures (a - b) - c == a - (b + c)
  {
    assert forall y :: ((a - b) - c)[y] == (a - (b + c))[y];
  }

  /** On success the free list loses exactly the utility slots taken. */
  lemma {:induction false} FitFree(f: Fitting, mods: seq<Json>)
    requires Fit(f, mods).Ok?
    ensures multiset(Fit(f, mods).value.free) == multiset(f.free) - multiset(Occupied(mods))
    decreases |mods|
  {
    if mods != [] {
      var m := mods[0];
      var rest := mods[1..];
      FitCons(f, mods);
      var g := Step(f, m).value;
      StepFields(f, m);
      FitFree(g, rest);
      var occ := if OccupiesUtility(m) && LastDigit(SlotOf(m)).Some? then [LastDigit(SlotOf(m)).value] else [];
      assert Occupied(mods) == occ + Occupied(rest);
      if occ != [] {
        assert multiset(Occupied(mods)) == multiset{occ[0]} + multiset(Occupied(rest));
        MinusPlus(multiset(f.free), multiset{occ[0]}, multiset(Occupied(rest)));
      } else {
        assert g.free == f.free;
      }
    }
  }

  /** On success the modules to remove are the boosters and generators, in
      order, after those already listed. */
  lemma {:induction false} FitRemoves(f: Fitting, mods: seq<Json>)
    requires Fit(f, mods).Ok?
    ensures Fit(f, mods).value.remove == f.remove + Dropped(mods)
    decreases |mods|
  {
    if mods != [] {
      FitCons(f, mods);
      var g := Step(f, mods[0]).value;
      StepFields(f, mods[0]);
      FitRemoves(g, mods[1..]);
      if Removed(mods[0]) {
        assert Dropped(mods) == [mods[0]] + Dropped(mods[1..]);
        assert g.remove + Dropped(mods[1..]) == f.remove + ([mods[0]] + Dropped(mods[1..]));
      } else {
        assert Dropped(mods) == Dropped(mods[1..]);
      }
    }
  }

  /** On success the highest internal class is the digit of the last
      shield generator's slot, or unchanged when there is none. */
  lemma FitHighest(f: Fitting, mods: seq<Json>)
    requires Fit(f, mods).Ok?
    ensures (forall i :: 0 <= i < |mods| ==> !IsGenerator(mods[i])) ==> Fit(f, mods).value.highest == f.highest
    ensures forall i :: 0 <= i < |mods| && IsGenerator(mods[i]) && (forall j :: i < j < |mods| ==> !IsGenerator(mods[j])) ==>
      LastDigit(SlotOf(mods[i])) == Some(Fit(f, mods).value.highest)
  {
    if forall i :: 0 <= i < |mods| ==> !IsGenerator(mods[i]) {
      FitHighestNone(f, mods);
    }
    forall i | 0 <= i < |mods| && IsGenerator(mods[i]) && (forall j :: i < j < |mods| ==> !IsGenerator(mods[j]))
      ensures LastDigit(SlotOf(mods[i])) == Some(Fit(f, mods).value.highest)
    {
      FitHighestLast(f, mods, i);
    }
  }

  lemma {:induction false} FitHighestNone(f: Fitting, mods: seq<Json>)
    requires Fit(f, mods).Ok?
    requires forall i :: 0 <= i < |mods| ==> !IsGenerator(mods[i])
    ensures Fit(f, mods).value.highest == f.highest
    decreases |mods|
  {
    if mods != [] {
      FitCons(f, mods);
      StepFields(f, mods[0]);
      var rest := mods[1..];
      assert forall j :: 0 <= j < |rest| ==> rest[j] == mods[j + 1];
      FitHighestNone(Step(f, mods[0]).value, rest);
    }
  }

  lemma {:induction false} FitHighestLast(f: Fitting, mods: seq<Json>, i: nat)
    requires Fit(f, mods).Ok?
    requires i < |mods| && IsGenerator(mods[i]) && forall j :: i < j < |mods| ==> !IsGenerator(mods[j])
    ensures LastDigit(SlotOf(mods[i])) == Some(Fit(f, mods).value.highest)
    decreases |mods|
  {
    FitCons(f, mods);
    StepFields(f, mods[0]);
    var g := Step(f, mods[0]).value;
    var rest := mods[1..];
    assert forall j :: 0 <= j < |rest| ==> rest[j] == mods[j + 1];
    if i == 0 {
      FitHighestNone(g, rest);
    } else {
      FitHighestLast(g, rest, i - 1);
    }
  }

  /** On success the layout keeps exactly the entries whose slot no module
      occupies. */
  lemma {:induction false} FitLayout(f: Fitting, mods: seq<Json>)
    requires Fit(f, mods).Ok?
    ensures forall e :: e in Fit(f, mods).value.layout <==> e in f.layout && e.0 !in InternalSlots(mods)
    decreases |mods|
  {
    if mods != [] {
      FitCons(f, mods);
      var g := Step(f, mods[0]).value;
      StepLayout(f, mods[0]);
      FitLayout(g, mods[1..]);
    }
  }

  // ---------------------------------------------------------------------
  // Taking the listed modules out of the template
  // ---------------------------------------------------------------------

  /** The modules without the first j of those that pass the test. */
  function DropFirst(s: seq<Json>, drop: Json -> bool, j: nat): seq<Json>
  {
    if j == 0 || s == [] then s
    else if drop(s[0]) then DropFirst(s[1..], drop, j - 1)
    else [s[0]] + DropFirst(s[1..], drop, j)
  }

  lemma RemoveFirstCons(y: Json, s: seq<Json>, x: Json)
    requires x in s && y != x
    ensures RemoveFirst([y] + s, x) == [y] + RemoveFirst(s, x)
  {
    assert ([y] + s)[1..] == s;
  }

  /** Removing the next listed module by value takes out exactly that one:
      earlier modules left in place cannot equal it, since equal modules are
      alike in passing the test or not. */
  lemma {:induction false} DropNext(s: seq<Json>, drop: Json -> bool, j: nat)
    requires j < |Filter(s, drop)|
    ensures Filter(s, drop)[j] in DropFirst(s, drop, j)
    ensures RemoveFirst(DropFirst(s, drop, j), Filter(s, drop)[j]) == DropFirst(s, drop, j + 1)
  {
    var rest := s[1..];
    if drop(s[0]) {
      assert Filter(s, drop) == [s[0]] + Filter(rest, drop);
      if j > 0 {
        DropNext(rest, drop, j - 1);
      }
    } else {
      assert Filter(s, drop) == Filter(rest, drop);
      var x := Filter(rest, drop)[j];
      DropNext(rest, drop, j);
      FilterExactly(rest, drop, m => !drop(m));
      assert x in Filter(rest, drop);
      RemoveFirstCons(s[0], DropFirst(rest, drop, j), x);
    }
  }

  /** Once every module that passes the test is removed, the others remain. */
  lemma {:induction false} DropAll(s: seq<Json>, drop: Json -> bool, keep: Json -> bool)
    requires forall m :: keep(m) == !drop(m)
    ensures DropFirst(s, drop, |Filter(s, drop)|) == Filter(s, keep)
  {
    if s != [] {
      DropAll(s[1..], drop, keep);
      if !drop(s[0]) && |Filter(s, drop)| == 0 {
        assert DropFirst(s[1..], drop, 0) == s[1..];
        FilterExactly(s[1..], keep, drop);
        KeptAll(s[1..], keep);
      }
    }
  }

  lemma {:induction false} KeptAll(s: seq<Json>, keep: Json -> bool)
    requires |Filter(s, keep)| == |s|
    ensures Filter(s, keep) == s
  {
    if s != [] {
      FilterExactly(s[1..], keep, m => !keep(m));
      KeptAll(s[1..], keep);
    }
  }

  /** The second loop of `import_loadout`: every listed module is removed by
      value, which leaves the kept modules. */
  method RemoveModules(mods: seq<Json>, items: seq<Json>) returns (kept: seq<Json>)
    requires items == Dropped(mods)
    ensures kept == Kept(mods)
  {
    kept := mods;
    for j := 0 to |items|
      invariant kept == DropFirst(mods, Removed, j)
    {
      DropNext(mods, Removed, j);
      kept := RemoveFirst(kept, items[j]);
    }
    DropAll(mods, Removed, Retained);
  }
}
