/** StarShip.py: the vehicle a shield is fitted to. */
module StarShips {
  import opened Json
  import opened Collections

  /** A ship. The source hands out deep copies of ships and mutates only
      the copies, so a ship is a value here. `internalSlotLayout` maps an
      internal slot number (from 1) to the largest module class it takes, in
      insertion order. */
  datatype StarShip = StarShip(
    name: string,
    customName: string,
    symbol: string,
    loadoutTemplate: map<string, Json>,
    baseShieldStrength: real,
    hullMass: real,
    utilitySlotsFree: seq<int>,
    highestInternal: int,
    internalSlotLayout: Items<int>)
  {
    /** The `utility_slots` property: one utility slot per free slot number. */
    function UtilitySlots(): nat
    {
      |utilitySlotsFree|
    }
  }

  /** The ship node of the data file, with the keys the loader reads. */
  datatype ShipJson = ShipJson(
    ship: string,
    symbol: string,
    loadoutTemplate: map<string, Json>,
    baseShieldStrength: real,
    hullMass: real,
    utilitySlots: int,
    highestInternal: int,
    internalSlots: seq<Json>)

  /** `list(range(lo, hi))`. */
  function Range(lo: int, hi: int): (r: seq<int>)
    ensures |r| == if lo < hi then hi - lo else 0
    ensures forall i :: 0 <= i < |r| ==> r[i] == lo + i
    decreases hi - lo
  {
    if lo >= hi then [] else [lo] + Range(lo + 1, hi)
  }

  /** The layout that the first n entries of the internal slot list give:
      slot i + 1 for every integer entry i, in list order; any other entry
      (a military slot) leaves its number out. */
  function SlotLayout(slots: seq<Json>, n: nat): Items<int>
    requires n <= |slots|
  {
    if n == 0 then []
    else
      var rest := SlotLayout(slots, n - 1);
      if slots[n - 1].Int? then rest + [(n, slots[n - 1].i)] else rest
  }

  /** The layout holds exactly the integer entries, under their 1-based
      position, with ascending and hence distinct keys. */
  lemma {:induction false} SlotLayoutEntries(slots: seq<Json>, n: nat)
    requires n <= |slots|
    ensures forall e :: e in SlotLayout(slots, n) <==>
      1 <= e.0 <= n && slots[e.0 - 1].Int? && e.1 == slots[e.0 - 1].i
    ensures forall i, j :: 0 <= i < j < |SlotLayout(slots, n)| ==>
      SlotLayout(slots, n)[i].0 < SlotLayout(slots, n)[j].0
  {
    if n > 0 {
      SlotLayoutEntries(slots, n - 1);
    }
  }

  /** `StarShip.create_from_json`: fields copied from the node, utility slots
      numbered 1 to `utility_slots`, and the internal layout filled with
      `setdefault` from the integer entries of the slot list. */
  method CreateFromJson(j: ShipJson) returns (ship: StarShip)
    ensures ship.name == j.ship && ship.symbol == j.symbol && ship.customName == ""
    ensures ship.loadoutTemplate == j.loadoutTemplate
    ensures ship.baseShieldStrength == j.baseShieldStrength && ship.hullMass == j.hullMass
    ensures ship.highestInternal == j.highestInternal
    ensures ship.utilitySlotsFree == Range(1, j.utilitySlots + 1)
    ensures ship.internalSlotLayout == SlotLayout(j.internalSlots, |j.internalSlots|)
  {
    var layout: Items<int> := [];
    var i := 0;
    while i < |j.internalSlots|
      invariant 0 <= i <= |j.internalSlots|
      invariant layout == SlotLayout(j.internalSlots, i)
    {
      var slot := j.internalSlots[i];
      if slot.Int? {
        SlotLayoutEntries(j.internalSlots, i);
        assert !HasKey(layout, i + 1) by {
          forall k | 0 <= k < |layout| ensures Keys(layout)[k] != i + 1 {
            assert layout[k] in layout;
          }
        }
        layout := SetDefault(layout, i + 1, slot.i);
      }
      i := i + 1;
    }
    ship := StarShip(j.ship, "", j.symbol, j.loadoutTemplate, j.baseShieldStrength, j.hullMass,
                     Range(1, j.utilitySlots + 1), j.highestInternal, layout);
  }

  /** The position of the first item whose class is at least `threshold`, or
      |items| when there is none. */
  function FirstFit(items: Items<int>, threshold: int): (i: nat)
    ensures i <= |items|
    ensures forall k :: 0 <= k < i ==> items[k].1 < threshold
    ensures i < |items| ==> items[i].1 >= threshold
  {
    if items == [] then 0
    else if items[0].1 >= threshold then 0
    else 1 + FirstFit(items[1..], threshold)
  }

  /** The order in which `get_available_internal_slot` scans the layout. */
  function ScanOrder(layout: Items<int>, reverse: bool): Items<int>
  {
    if reverse then Reverse(SortItems(layout)) else SortItems(layout)
  }

  /** `get_available_internal_slot`: the first (slot, class) in scan order
      whose class is at least min(module_class, highest_internal), or (0, 0). */
  function GetAvailableInternalSlot(ship: StarShip, moduleClass: int, reverse: bool): (int, int)
  {
    var items := ScanOrder(ship.internalSlotLayout, reverse);
    var threshold := if moduleClass <= ship.highestInternal then moduleClass else ship.highestInternal;
    var i := FirstFit(items, threshold);
    if i < |items| then items[i] else (0, 0)
  }

  /** The slot found is an entry of the layout whose class reaches the
      threshold, and every slot scanned before it (lower numbers, or higher
      ones when scanning in reverse) takes less; (0, 0) means that no slot
      reaches the threshold. */
  lemma AvailableInternalSlot(ship: StarShip, moduleClass: int, reverse: bool)
    ensures var r := GetAvailableInternalSlot(ship, moduleClass, reverse);
      var t := if moduleClass <= ship.highestInternal then moduleClass else ship.highestInternal;
      (r in ship.internalSlotLayout && r.1 >= t &&
        forall e :: e in ship.internalSlotLayout && (if reverse then e.0 > r.0 else e.0 < r.0) ==> e.1 < t)
      || (r == (0, 0) && forall e :: e in ship.internalSlotLayout ==> e.1 < t)
  {
    var t := if moduleClass <= ship.highestInternal then moduleClass else ship.highestInternal;
    ScanOrderSorted(ship.internalSlotLayout, reverse);
    FirstFitOfLayout(ship.internalSlotLayout, ScanOrder(ship.internalSlotLayout, reverse), t, reverse);
  }

  /** The first fit of an ordered rearrangement of the layout, stated about
      the layout itself. */
  lemma FirstFitOfLayout(layout: Items<int>, items: Items<int>, t: int, down: bool)
    requires multiset(items) == multiset(layout) && SlotOrdered(items, down)
    ensures var i := FirstFit(items, t);
      var r := if i < |items| then items[i] else (0, 0);
      (r in layout && r.1 >= t && forall e :: e in layout && (if down then e.0 > r.0 else e.0 < r.0) ==> e.1 < t)
      || (r == (0, 0) && forall e :: e in layout ==> e.1 < t)
  {
    SameMembers(layout, items);
    FirstFitSorted(items, t, down);
    var i := FirstFit(items, t);
    if i < |items| {
      assert items[i] in items;
    }
  }

  lemma SameMembers<T>(a: seq<T>, b: seq<T>)
    requires multiset(a) == multiset(b)
    ensures forall e :: e in a <==> e in b
  {
    forall e ensures e in a <==> e in b {
      assert e in a <==> e in multiset(a);
      assert e in b <==> e in multiset(b);
    }
  }

  /** The scan visits the entries of the layout by ascending slot number, or
      by descending slot number in reverse. */
  lemma ScanOrderSorted(layout: Items<int>, reverse: bool)
    ensures multiset(ScanOrder(layout, reverse)) == multiset(layout)
    ensures SlotOrdered(ScanOrder(layout, reverse), reverse)
  {
    SortItemsSorted(layout);
    if reverse {
      ReversePermutes(SortItems(layout));
    }
  }

  /** Ascending slot numbers, or descending ones when `down`. */
  predicate SlotOrdered(items: Items<int>, down: bool)
  {
    forall i, j :: 0 <= i < j < |items| ==> if down then items[i].0 >= items[j].0 else items[i].0 <= items[j].0
  }

  /** In a list ordered by slot number, the first fit has no fitting slot
      before it in that order. */
  lemma FirstFitSorted(items: Items<int>, t: int, down: bool)
    requires SlotOrdered(items, down)
    ensures var i := FirstFit(items, t);
      i < |items| ==> forall e :: e in items && (if down then e.0 > items[i].0 else e.0 < items[i].0) ==> e.1 < t
    ensures FirstFit(items, t) == |items| ==> forall e :: e in items ==> e.1 < t
  {
    var i := FirstFit(items, t);
    forall e | e in items && (i == |items| || if down then e.0 > items[i].0 else e.0 < items[i].0)
      ensures e.1 < t
    {
      var k :| 0 <= k < |items| && items[k] == e;
      assert k < i;
    }
  }

  lemma ReversePermutes<T>(s: seq<T>)
    ensures multiset(Reverse(s)) == multiset(s)
  {
    if s != [] {
      ReversePermutes(s[1..]);
      assert s == [s[0]] + s[1..];
    }
  }
}
