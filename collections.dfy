/** Python's ordered dictionaries with integer keys, as their item lists in
    insertion order, and Python's stable `list.sort`. */
module Collections {

  // ---------------------------------------------------------------------
  // dict[int, V] as its items in insertion order
  // ---------------------------------------------------------------------

  type Items<V> = seq<(int, V)>

  function Keys<V>(d: Items<V>): (r: seq<int>)
    ensures |r| == |d|
    ensures forall i :: 0 <= i < |d| ==> r[i] == d[i].0
  {
    seq(|d|, i requires 0 <= i < |d| => d[i].0)
  }

  ghost predicate DistinctKeys<V>(d: Items<V>)
  {
    forall i, j :: 0 <= i < j < |d| ==> d[i].0 != d[j].0
  }

  predicate HasKey<V>(d: Items<V>, k: int)
  {
    k in Keys(d)
  }

  /** `d[k]`. */
  function Get<V>(d: Items<V>, k: int): (v: V)
    requires HasKey(d, k)
    ensures (k, v) in d
  {
    if d[0].0 == k then d[0].1 else
      assert k in Keys(d[1..]) by {
        var i :| 0 <= i < |d| && Keys(d)[i] == k;
        assert Keys(d[1..])[i - 1] == k;
      }
      Get(d[1..], k)
  }

  /** `d.pop(k)`, for a key that is present: the entry with key k goes. */
  function Pop<V>(d: Items<V>, k: int): (r: Items<V>)
    ensures forall i :: 0 <= i < |r| ==> r[i] in d && r[i].0 != k
    ensures forall i :: 0 <= i < |d| && d[i].0 != k ==> d[i] in r
    ensures |r| <= |d|
  {
    if d == [] then []
    else if d[0].0 == k then Pop(d[1..], k)
    else [d[0]] + Pop(d[1..], k)
  }

  /** Popping k keeps exactly the entries with another key. */
  lemma PopMembers<V>(d: Items<V>, k: int)
    ensures forall e :: e in Pop(d, k) <==> e in d && e.0 != k
  {
    forall e | e in d && e.0 != k ensures e in Pop(d, k) {
      var i :| 0 <= i < |d| && d[i] == e;
    }
  }

  /** No entry has a key the dictionary does not hold. */
  lemma AbsentKey<V>(d: Items<V>, k: int)
    requires !HasKey(d, k)
    ensures forall e :: e in d ==> e.0 != k
  {
    forall e | e in d ensures e.0 != k {
      var i :| 0 <= i < |d| && d[i] == e;
      assert Keys(d)[i] == e.0;
    }
  }

  /** `d.setdefault(k, v)`: a new key goes at the end, a present key stays. */
  function SetDefault<V>(d: Items<V>, k: int, v: V): (r: Items<V>)
    ensures HasKey(d, k) ==> r == d
    ensures !HasKey(d, k) ==> r == d + [(k, v)]
  {
    if HasKey(d, k) then d else d + [(k, v)]
  }

  lemma SetDefaultDistinct<V>(d: Items<V>, k: int, v: V)
    requires DistinctKeys(d)
    ensures DistinctKeys(SetDefault(d, k, v))
  {
    if !HasKey(d, k) {
      var r := d + [(k, v)];
      forall i, j | 0 <= i < j < |r| ensures r[i].0 != r[j].0 {
        if j == |d| {
          assert Keys(d)[i] == r[i].0;
        }
      }
    }
  }

  /** Insertion by key, for `sorted(d.items())`. */
  function InsertItem<V>(x: (int, V), s: Items<V>): (r: Items<V>)
    ensures multiset(r) == multiset(s) + multiset{x}
    ensures |r| == |s| + 1
  {
    if s == [] || x.0 <= s[0].0 then [x] + s
    else
      assert s == [s[0]] + s[1..];
      [s[0]] + InsertItem(x, s[1..])
  }

  /** `sorted(d.items())`: the items by ascending key. */
  function SortItems<V>(d: Items<V>): (r: Items<V>)
    ensures multiset(r) == multiset(d)
    ensures |r| == |d|
  {
    if d == [] then []
    else
      assert d == [d[0]] + d[1..];
      InsertItem(d[0], SortItems(d[1..]))
  }

  ghost predicate AscendingKeys<V>(s: Items<V>)
  {
    forall i, j :: 0 <= i < j < |s| ==> s[i].0 <= s[j].0
  }

  lemma {:induction false} InsertItemSorted<V>(x: (int, V), s: Items<V>)
    requires AscendingKeys(s)
    ensures AscendingKeys(InsertItem(x, s))
  {
    if s != [] && x.0 > s[0].0 {
      InsertItemSorted(x, s[1..]);
      var t := InsertItem(x, s[1..]);
      var r := [s[0]] + t;
      forall i, j | 0 <= i < j < |r| ensures r[i].0 <= r[j].0 {
        if i == 0 {
          var e := r[j];
          assert e in multiset(t);
          assert e in multiset(s[1..]) + multiset{x};
          if e != x {
            assert e in s[1..];
            var k :| 0 <= k < |s[1..]| && s[1..][k] == e;
            assert s[k + 1] == e;
          }
        }
      }
    }
  }

  /** The items come out by ascending key and are the same items. */
  lemma {:induction false} SortItemsSorted<V>(d: Items<V>)
    ensures AscendingKeys(SortItems(d))
    ensures multiset(SortItems(d)) == multiset(d)
  {
    if d != [] {
      SortItemsSorted(d[1..]);
      InsertItemSorted(d[0], SortItems(d[1..]));
    }
  }

  function Reverse<T>(s: seq<T>): (r: seq<T>)
    ensures |r| == |s|
    ensures forall i :: 0 <= i < |s| ==> r[i] == s[|s| - 1 - i]
  {
    if s == [] then [] else Reverse(s[1..]) + [s[0]]
  }

  // ---------------------------------------------------------------------
  // list.sort(key=lambda tup: tup[0], reverse=desc), which is stable
  // ---------------------------------------------------------------------

  /** y goes strictly before x in the requested direction. */
  predicate Precedes<T>(y: (real, T), x: (real, T), desc: bool)
  {
    if desc then y.0 > x.0 else y.0 < x.0
  }

  ghost predicate SortedBy<T>(s: seq<(real, T)>, desc: bool)
  {
    forall i, j :: 0 <= i < j < |s| ==> !Precedes(s[j], s[i], desc)
  }

  /** Inserting behind every element that goes strictly before x keeps x in
      front of the later elements with an equal key: the sort is stable. */
  function Insert<T>(x: (real, T), s: seq<(real, T)>, desc: bool): (r: seq<(real, T)>)
    ensures multiset(r) == multiset(s) + multiset{x}
    ensures |r| == |s| + 1
  {
    if s == [] || !Precedes(s[0], x, desc) then [x] + s
    else
      assert s == [s[0]] + s[1..];
      [s[0]] + Insert(x, s[1..], desc)
  }

  function SortBy<T>(s: seq<(real, T)>, desc: bool): (r: seq<(real, T)>)
    ensures multiset(r) == multiset(s)
    ensures |r| == |s|
  {
    if s == [] then []
    else
      assert s == [s[0]] + s[1..];
      Insert(s[0], SortBy(s[1..], desc), desc)
  }

  lemma {:induction false} InsertSorted<T>(x: (real, T), s: seq<(real, T)>, desc: bool)
    requires SortedBy(s, desc)
    ensures SortedBy(Insert(x, s, desc), desc)
  {
    if s != [] && Precedes(s[0], x, desc) {
      InsertSorted(x, s[1..], desc);
      var t := Insert(x, s[1..], desc);
      var r := [s[0]] + t;
      forall i, j | 0 <= i < j < |r| ensures !Precedes(r[j], r[i], desc) {
        if i == 0 {
          var e := r[j];
          assert e in multiset(t);
          assert e in multiset(s[1..]) + multiset{x};
          if e != x {
            assert e in s[1..];
            var k :| 0 <= k < |s[1..]| && s[1..][k] == e;
            assert s[k + 1] == e;
          }
        }
      }
    }
  }

  /** The sort orders by key in the requested direction, permutes, and is
      stable: the pairs of each key keep their relative order. */
  lemma {:induction false} SortBySorted<T>(s: seq<(real, T)>, desc: bool)
    ensures SortedBy(SortBy(s, desc), desc)
    ensures multiset(SortBy(s, desc)) == multiset(s)
    ensures forall v :: KeyFilter(SortBy(s, desc), v) == KeyFilter(s, v)
  {
    if s != [] {
      SortBySorted(s[1..], desc);
      InsertSorted(s[0], SortBy(s[1..], desc), desc);
    }
    forall v ensures KeyFilter(SortBy(s, desc), v) == KeyFilter(s, v) {
      SortByStable(s, desc, v);
    }
  }

  /** The pairs of s whose key is v, in order. */
  function KeyFilter<T>(s: seq<(real, T)>, v: real): seq<(real, T)>
  {
    if s == [] then [] else (if s[0].0 == v then [s[0]] else []) + KeyFilter(s[1..], v)
  }

  /** Insertion puts x ahead of every pair with the same key. */
  lemma {:induction false} InsertStable<T>(x: (real, T), s: seq<(real, T)>, desc: bool, v: real)
    ensures KeyFilter(Insert(x, s, desc), v) == (if x.0 == v then [x] else []) + KeyFilter(s, v)
  {
    if s == [] || !Precedes(s[0], x, desc) {
      assert ([x] + s)[1..] == s;
    } else {
      var t := Insert(x, s[1..], desc);
      InsertStable(x, s[1..], desc, v);
      assert ([s[0]] + t)[1..] == t;
      assert s[0].0 != x.0;
      var h := if s[0].0 == v then [s[0]] else [];
      var e := if x.0 == v then [x] else [];
      assert h == [] || e == [];
      calc {
        KeyFilter(Insert(x, s, desc), v);
      ==
        h + KeyFilter(t, v);
      ==
        h + (e + KeyFilter(s[1..], v));
      == { assert h + (e + KeyFilter(s[1..], v)) == e + (h + KeyFilter(s[1..], v)); }
        e + KeyFilter(s, v);
      }
    }
  }

  /** The sort keeps the pairs of each key in their original order. */
  lemma {:induction false} SortByStable<T>(s: seq<(real, T)>, desc: bool, v: real)
    ensures KeyFilter(SortBy(s, desc), v) == KeyFilter(s, v)
  {
    if s != [] {
      SortByStable(s[1..], desc, v);
      InsertStable(s[0], SortBy(s[1..], desc), desc, v);
    }
  }

  /** The pairs of a key in a prefix are a prefix of that key's pairs. */
  lemma {:induction false} KeyFilterPrefix<T>(s: seq<(real, T)>, m: nat, v: real)
    requires m <= |s|
    ensures KeyFilter(s[..m], v) <= KeyFilter(s, v)
  {
    if m > 0 {
      var t := s[1..];
      KeyFilterPrefix(t, m - 1, v);
      assert s[..m][0] == s[0] && s[..m][1..] == t[..m - 1];
      var h := if s[0].0 == v then [s[0]] else [];
      assert KeyFilter(s[..m], v) == h + KeyFilter(t[..m - 1], v);
      assert KeyFilter(s, v) == h + KeyFilter(t, v);
      PrefixConcat(h, KeyFilter(t[..m - 1], v), KeyFilter(t, v));
    }
  }

  lemma PrefixConcat<U>(h: seq<U>, a: seq<U>, b: seq<U>)
    requires a <= b
    ensures h + a <= h + b
  {
    assert (h + b)[..|h + a|] == h + a;
  }

  // ---------------------------------------------------------------------
  // list.remove(x), and list.sort() on integers
  // ---------------------------------------------------------------------

  /** `s.remove(x)` for an x that is present: its first occurrence goes. */
  function RemoveFirst<T(==)>(s: seq<T>, x: T): (r: seq<T>)
    requires x in s
    ensures multiset(r) == multiset(s) - multiset{x}
    ensures |r| == |s| - 1
  {
    if s[0] == x then
      assert s == [s[0]] + s[1..];
      s[1..]
    else
      assert s == [s[0]] + s[1..];
      [s[0]] + RemoveFirst(s[1..], x)
  }

  /** The position of the first occurrence of x, as `list.index` gives it. */
  function FirstIndex<T(==)>(s: seq<T>, x: T): (i: nat)
    requires x in s
    ensures i < |s| && s[i] == x && x !in s[..i]
  {
    if s[0] == x then 0
    else
      var i := FirstIndex(s[1..], x);
      assert s[..i + 1] == [s[0]] + s[1..][..i];
      i + 1
  }

  /** The copy `list.remove` takes out is the first one: everything before
      it is kept, and so is everything after it. */
  lemma {:induction false} RemoveFirstIsFirst<T>(s: seq<T>, x: T)
    requires x in s
    ensures var i := FirstIndex(s, x); RemoveFirst(s, x) == s[..i] + s[i + 1..]
  {
    if s[0] == x {
      assert FirstIndex(s, x) == 0 && RemoveFirst(s, x) == s[1..];
      assert s[..0] + s[0 + 1..] == s[1..];
    } else {
      var t := s[1..];
      assert s == [s[0]] + t;
      var i := FirstIndex(t, x);
      assert FirstIndex(s, x) == i + 1 && RemoveFirst(s, x) == [s[0]] + RemoveFirst(t, x);
      RemoveFirstIsFirst(t, x);
      ConsSplice(s[0], t, i);
    }
  }

  lemma ConsSplice<T>(a: T, t: seq<T>, i: nat)
    requires i < |t|
    ensures [a] + (t[..i] + t[i + 1..]) == ([a] + t)[..i + 1] + ([a] + t)[i + 2..]
  {
    assert ([a] + t)[..i + 1] == [a] + t[..i];
    assert ([a] + t)[i + 2..] == t[i + 1..];
  }

  ghost predicate Ascending(s: seq<int>)
  {
    forall i, j :: 0 <= i < j < |s| ==> s[i] <= s[j]
  }

  function InsertInt(x: int, s: seq<int>): (r: seq<int>)
    ensures multiset(r) == multiset(s) + multiset{x}
    ensures |r| == |s| + 1
  {
    if s == [] || x <= s[0] then [x] + s
    else
      assert s == [s[0]] + s[1..];
      [s[0]] + InsertInt(x, s[1..])
  }

  function SortInts(s: seq<int>): (r: seq<int>)
    ensures multiset(r) == multiset(s)
    ensures |r| == |s|
  {
    if s == [] then []
    else
      assert s == [s[0]] + s[1..];
      InsertInt(s[0], SortInts(s[1..]))
  }

  lemma {:induction false} InsertIntAscending(x: int, s: seq<int>)
    requires Ascending(s)
    ensures Ascending(InsertInt(x, s))
  {
    if s != [] && x > s[0] {
      InsertIntAscending(x, s[1..]);
      var t := InsertInt(x, s[1..]);
      var r := [s[0]] + t;
      forall i, j | 0 <= i < j < |r| ensures r[i] <= r[j] {
        if i == 0 {
          var e := r[j];
          assert e in multiset(t);
          assert e in multiset(s[1..]) + multiset{x};
          if e != x {
            assert e in s[1..];
            var k :| 0 <= k < |s[1..]| && s[1..][k] == e;
            assert s[k + 1] == e;
          }
        }
      }
    }
  }

  /** `list.sort()` on integers orders ascending and permutes. */
  lemma {:induction false} SortIntsAscending(s: seq<int>)
    ensures Ascending(SortInts(s))
    ensures multiset(SortInts(s)) == multiset(s)
  {
    if s != [] {
      SortIntsAscending(s[1..]);
      InsertIntAscending(s[0], SortInts(s[1..]));
    }
  }
}
