/** The library pieces the search relies on, as values: factorial and binomial
    coefficients, `itertools.combinations_with_replacement` over `range(n)`,
    and the slicing generator `chunks`. */
module Combinatorics {

  // ---------------------------------------------------------------------
  // Factorial and binomial coefficients
  // ---------------------------------------------------------------------

  function Fact(n: nat): (r: nat)
    ensures r >= 1
  {
    if n == 0 then 1 else n * Fact(n - 1)
  }

  /** Pascal's rule; the number of b-element subsets of an a-element set. */
  function Binom(a: nat, b: nat): nat
  {
    if b == 0 then 1 else if a == 0 then 0 else Binom(a - 1, b - 1) + Binom(a - 1, b)
  }

  lemma {:induction false} BinomBeyond(a: nat, b: nat)
    requires a < b
    ensures Binom(a, b) == 0
  {
    if a > 0 {
      BinomBeyond(a - 1, b - 1);
      BinomBeyond(a - 1, b);
    }
  }

  lemma {:induction false} BinomAll(a: nat)
    ensures Binom(a, a) == 1
  {
    if a > 0 {
      BinomAll(a - 1);
      BinomBeyond(a - 1, a);
    }
  }

  /** The closed form that the estimate of the number of tests uses:
      C(a, b) * b! * (a - b)! == a!. */
  lemma {:induction false} BinomFactorial(a: nat, b: nat)
    requires b <= a
    ensures Binom(a, b) * Fact(b) * Fact(a - b) == Fact(a)
  {
    if b == 0 {
    } else if b == a {
      BinomAll(a);
    } else {
      // 0 < b < a
      BinomFactorial(a - 1, b - 1);
      BinomFactorial(a - 1, b);
      assert Fact(b) == b * Fact(b - 1);
      assert Fact(a - b) == (a - b) * Fact(a - 1 - b);
      assert Fact(a) == a * Fact(a - 1);
      PascalProduct(a, b, Binom(a - 1, b - 1), Binom(a - 1, b), Fact(b - 1), Fact(a - 1 - b), Fact(a - 1));
    }
  }

  /** The arithmetic of one step of Pascal's rule: with
      x * (b-1)! * (a-b)! == (a-1)! and y * b! * (a-1-b)! == (a-1)!,
      (x + y) * b! * (a-b)! == a * (a-1)!. */
  lemma PascalProduct(a: int, b: int, x: int, y: int, fb1: int, fab: int, p: int)
    requires x * fb1 * ((a - b) * fab) == p
    requires y * (b * fb1) * fab == p
    ensures (x + y) * (b * fb1) * ((a - b) * fab) == a * p
  {
    var f, g := b * fb1, (a - b) * fab;
    Regroup(x, b, fb1, g);
    Regroup(y, a - b, f, fab);
    assert x * f * g == b * p;
    assert y * f * g == (a - b) * p;
    Distribute(x, y, f * g);
    Associate(x + y, f, g);
    Associate(x, f, g);
    Associate(y, f, g);
    Distribute(b, a - b, p);
  }

  lemma Regroup(x: int, b: int, c: int, g: int)
    ensures x * (b * c) * g == b * (x * c * g)
    ensures x * c * (b * g) == b * (x * c * g)
  {
  }

  lemma Associate(x: int, y: int, z: int)
    ensures x * y * z == x * (y * z)
  {
  }

  lemma Distribute(x: int, y: int, z: int)
    ensures (x + y) * z == x * z + y * z
  {
  }

  /** Dividing the factorials out, as the estimate does in floating point,
      gives the binomial coefficient exactly. */
  lemma FactorialQuotient(a: nat, b: nat)
    requires b <= a
    ensures (Fact(a) as real) / (Fact(a - b) as real) / (Fact(b) as real) == Binom(a, b) as real
  {
    BinomFactorial(a, b);
    Quotient(Fact(a), Binom(a, b), Fact(b), Fact(a - b));
  }

  lemma Quotient(p: int, c: int, f: int, g: int)
    requires f > 0 && g > 0 && c * f * g == p
    ensures (p as real) / (g as real) / (f as real) == c as real
  {
    RealOfProduct(c, f);
    RealOfProduct(c * f, g);
    CancelFactor(c as real * f as real, g as real);
    CancelFactor(c as real, f as real);
  }

  lemma RealOfProduct(x: int, y: int)
    ensures (x * y) as real == (x as real) * (y as real)
  {
  }

  lemma CancelFactor(c: real, d: real)
    requires d != 0.0
    ensures (c * d) / d == c
  {
  }

  // ---------------------------------------------------------------------
  // itertools.combinations_with_replacement(range(lo, n), k)
  // ---------------------------------------------------------------------

  function Prepend(x: nat, ts: seq<seq<nat>>): (r: seq<seq<nat>>)
    ensures |r| == |ts|
    ensures forall i :: 0 <= i < |ts| ==> r[i] == [x] + ts[i]
  {
    seq(|ts|, i requires 0 <= i < |ts| => [x] + ts[i])
  }

  /** All non-decreasing k-tuples over [lo, n), in lexicographic order. */
  function CombinationsFrom(lo: nat, n: nat, k: nat): seq<seq<nat>>
    decreases k, n - lo
  {
    if k == 0 then [[]]
    else if lo >= n then []
    else Prepend(lo, CombinationsFrom(lo, n, k - 1)) + CombinationsFrom(lo + 1, n, k)
  }

  function Combinations(n: nat, k: nat): seq<seq<nat>>
  {
    CombinationsFrom(0, n, k)
  }

  ghost predicate NonDecreasing(t: seq<nat>)
  {
    forall i, j :: 0 <= i < j < |t| ==> t[i] <= t[j]
  }

  ghost predicate InRange(t: seq<nat>, lo: nat, n: nat)
  {
    forall i :: 0 <= i < |t| ==> lo <= t[i] < n
  }

  /** The number of combinations with repetition: C(m + k - 1, k) for the
      m = n - lo values, and (for m = 0) one empty tuple when k = 0. */
  lemma {:induction false} CombinationsFromCount(lo: nat, n: nat, k: nat)
    ensures lo < n ==> |CombinationsFrom(lo, n, k)| == Binom(n - lo + k - 1, k)
    ensures lo >= n ==> |CombinationsFrom(lo, n, k)| == (if k == 0 then 1 else 0)
    decreases k, n - lo
  {
    if k > 0 && lo < n {
      CombinationsFromCount(lo, n, k - 1);
      CombinationsFromCount(lo + 1, n, k);
      if lo + 1 >= n {
        BinomBeyond(k - 1, k);
      }
    }
  }

  lemma CombinationsCount(n: nat, k: nat)
    requires n >= 1
    ensures |Combinations(n, k)| == Binom(n + k - 1, k)
  {
    CombinationsFromCount(0, n, k);
  }

  /** Every tuple has length k, is non-decreasing and stays within [lo, n). */
  lemma {:induction false} CombinationsFromShape(lo: nat, n: nat, k: nat, t: seq<nat>)
    requires t in CombinationsFrom(lo, n, k)
    ensures |t| == k && NonDecreasing(t) && InRange(t, lo, n)
    decreases k, n - lo
  {
    if k > 0 && lo < n {
      var left := Prepend(lo, CombinationsFrom(lo, n, k - 1));
      if t in left {
        var i :| 0 <= i < |left| && left[i] == t;
        var u := CombinationsFrom(lo, n, k - 1)[i];
        CombinationsFromShape(lo, n, k - 1, u);
        assert t == [lo] + u;
        ConsShape(lo, n, u);
      } else {
        CombinationsFromShape(lo + 1, n, k, t);
      }
    }
  }

  lemma ConsShape(lo: nat, n: nat, u: seq<nat>)
    requires lo < n && NonDecreasing(u) && InRange(u, lo, n)
    ensures NonDecreasing([lo] + u) && InRange([lo] + u, lo, n)
  {
    var t := [lo] + u;
    assert forall i :: 0 < i < |t| ==> t[i] == u[i - 1];
  }

  /** Conversely every such tuple is enumerated. */
  lemma {:induction false} CombinationsFromComplete(lo: nat, n: nat, k: nat, t: seq<nat>)
    requires |t| == k && NonDecreasing(t) && InRange(t, lo, n)
    ensures t in CombinationsFrom(lo, n, k)
    decreases k, n - lo
  {
    if k > 0 {
      assert lo <= t[0] < n;
      var rest := CombinationsFrom(lo + 1, n, k);
      var ts := CombinationsFrom(lo, n, k - 1);
      assert CombinationsFrom(lo, n, k) == Prepend(lo, ts) + rest;
      if t[0] == lo {
        var u := t[1..];
        TailShape(t, lo, n);
        CombinationsFromComplete(lo, n, k - 1, u);
        var i :| 0 <= i < |ts| && ts[i] == u;
        assert Prepend(lo, ts)[i] == t;
      } else {
        RaiseLow(t, lo, n);
        CombinationsFromComplete(lo + 1, n, k, t);
      }
    }
  }

  lemma TailShape(t: seq<nat>, lo: nat, n: nat)
    requires |t| > 0 && NonDecreasing(t) && InRange(t, lo, n)
    ensures NonDecreasing(t[1..]) && InRange(t[1..], lo, n) && t == [t[0]] + t[1..]
  {
    assert forall i :: 0 <= i < |t| - 1 ==> t[1..][i] == t[i + 1];
  }

  lemma RaiseLow(t: seq<nat>, lo: nat, n: nat)
    requires |t| > 0 && NonDecreasing(t) && InRange(t, lo, n) && t[0] != lo
    ensures InRange(t, lo + 1, n)
  {
    forall i | 0 <= i < |t| ensures lo + 1 <= t[i] {
      if i > 0 {
        assert t[0] <= t[i];
      }
    }
  }

  lemma CombinationsExactly(n: nat, k: nat, t: seq<nat>)
    ensures t in Combinations(n, k) <==> |t| == k && NonDecreasing(t) && InRange(t, 0, n)
  {
    if t in Combinations(n, k) {
      CombinationsFromShape(0, n, k, t);
    }
    if |t| == k && NonDecreasing(t) && InRange(t, 0, n) {
      CombinationsFromComplete(0, n, k, t);
    }
  }

  /** a goes strictly before b in lexicographic order. */
  predicate LexLess(a: seq<nat>, b: seq<nat>)
  {
    a != [] && b != [] && (a[0] < b[0] || (a[0] == b[0] && LexLess(a[1..], b[1..])))
  }

  ghost predicate LexIncreasing(ts: seq<seq<nat>>)
  {
    forall i, j :: 0 <= i < j < |ts| ==> LexLess(ts[i], ts[j])
  }

  lemma PrependLex(x: nat, ts: seq<seq<nat>>)
    requires LexIncreasing(ts)
    ensures LexIncreasing(Prepend(x, ts))
  {
    var p := Prepend(x, ts);
    forall i, j | 0 <= i < j < |p| ensures LexLess(p[i], p[j]) {
      assert p[i][1..] == ts[i] && p[j][1..] == ts[j];
    }
  }

  /** The tuples come in strictly increasing lexicographic order. */
  lemma {:induction false} CombinationsFromLex(lo: nat, n: nat, k: nat)
    ensures LexIncreasing(CombinationsFrom(lo, n, k))
    decreases k, n - lo
  {
    if k > 0 && lo < n {
      var ts := CombinationsFrom(lo, n, k - 1);
      var rest := CombinationsFrom(lo + 1, n, k);
      CombinationsFromLex(lo, n, k - 1);
      CombinationsFromLex(lo + 1, n, k);
      var left := Prepend(lo, ts);
      PrependLex(lo, ts);
      var c := left + rest;
      assert CombinationsFrom(lo, n, k) == c;
      forall i, j | 0 <= i < j < |c| ensures LexLess(c[i], c[j]) {
        if j < |left| {
          assert c[i] == left[i] && c[j] == left[j];
        } else if i >= |left| {
          assert c[i] == rest[i - |left|] && c[j] == rest[j - |left|];
        } else {
          var t := rest[j - |left|];
          assert c[j] == t && t in rest;
          CombinationsFromShape(lo + 1, n, k, t);
          assert c[i] == [lo] + ts[i];
          assert lo < t[0];
        }
      }
    }
  }

  /** `combinations_with_replacement` emits its tuples in strictly
      increasing lexicographic order, so no tuple repeats. */
  lemma CombinationsLex(n: nat, k: nat)
    ensures forall i, j :: 0 <= i < j < |Combinations(n, k)| ==> LexLess(Combinations(n, k)[i], Combinations(n, k)[j])
  {
    CombinationsFromLex(0, n, k);
  }

  // ---------------------------------------------------------------------
  // chunks(l, n): consecutive slices of length at most n
  // ---------------------------------------------------------------------

  function Chunks<T>(l: seq<T>, n: nat): (r: seq<seq<T>>)
    requires n > 0
    decreases |l|
  {
    if l == [] then []
    else if |l| <= n then [l]
    else [l[..n]] + Chunks(l[n..], n)
  }

  function Flatten<T>(ss: seq<seq<T>>): seq<T>
  {
    if ss == [] then [] else ss[0] + Flatten(ss[1..])
  }

  lemma {:induction false} FlattenAppend<T>(a: seq<seq<T>>, b: seq<seq<T>>)
    ensures Flatten(a + b) == Flatten(a) + Flatten(b)
  {
    if a != [] {
      assert (a + b)[0] == a[0];
      assert (a + b)[1..] == a[1..] + b;
      FlattenAppend(a[1..], b);
    } else {
      assert a + b == b;
    }
  }

  /** Together the chunks are l. */
  lemma {:induction false} ChunksFlatten<T>(l: seq<T>, n: nat)
    requires n > 0
    ensures Flatten(Chunks(l, n)) == l
    decreases |l|
  {
    if l != [] && |l| > n {
      ChunksFlatten(l[n..], n);
      var c := Chunks(l, n);
      assert c[0] == l[..n] && c[1..] == Chunks(l[n..], n);
      assert l[..n] + l[n..] == l;
    }
  }

  /** Each chunk is non-empty and no longer than n; all but the last are
      exactly n long. */
  lemma {:induction false} ChunksSizes<T>(l: seq<T>, n: nat)
    requires n > 0
    ensures forall i :: 0 <= i < |Chunks(l, n)| ==> 0 < |Chunks(l, n)[i]| <= n
    ensures forall i :: 0 <= i < |Chunks(l, n)| - 1 ==> |Chunks(l, n)[i]| == n
    decreases |l|
  {
    if l != [] && |l| > n {
      ChunksSizes(l[n..], n);
      var c := Chunks(l, n);
      assert forall i :: 1 <= i < |c| ==> c[i] == Chunks(l[n..], n)[i - 1];
    }
  }

  /** Every element of a chunk is an element of l. */
  lemma {:induction false} ChunksMembers<T>(l: seq<T>, n: nat)
    requires n > 0
    ensures forall i, x :: 0 <= i < |Chunks(l, n)| && x in Chunks(l, n)[i] ==> x in l
    decreases |l|
  {
    if l != [] && |l| > n {
      ChunksMembers(l[n..], n);
      var c := Chunks(l, n);
      assert forall i :: 1 <= i < |c| ==> c[i] == Chunks(l[n..], n)[i - 1];
      assert l == l[..n] + l[n..];
    }
  }

  /** There are ceil(|l| / n) chunks: just enough to hold |l| elements. */
  lemma {:induction false} ChunksCount<T>(l: seq<T>, n: nat)
    requires n > 0
    ensures |Chunks(l, n)| == 0 <==> l == []
    ensures (|Chunks(l, n)| - 1) * n < |l| <= |Chunks(l, n)| * n
    decreases |l|
  {
    if l != [] && |l| > n {
      ChunksCount(l[n..], n);
      var c := |Chunks(l[n..], n)|;
      Distribute(c, 1, n);
      Distribute(c - 1, 1, n);
    }
  }

  // ---------------------------------------------------------------------
  // A nested loop: for x in xs: e = outer(x); for y in ys: emit(inner(e, y))
  // ---------------------------------------------------------------------

  function GridRow<E, B, C>(e: E, ys: seq<B>, inner: (E, B) -> C): (r: seq<C>)
    ensures |r| == |ys|
    ensures forall j :: 0 <= j < |ys| ==> r[j] == inner(e, ys[j])
  {
    seq(|ys|, j requires 0 <= j < |ys| => inner(e, ys[j]))
  }

  /** Everything the nested loop emits, row by row. */
  function Grid<A, B, E, C>(xs: seq<A>, ys: seq<B>, outer: A -> E, inner: (E, B) -> C): seq<C>
  {
    if xs == [] then []
    else Grid(xs[..|xs| - 1], ys, outer, inner) + GridRow(outer(xs[|xs| - 1]), ys, inner)
  }

  lemma GridRowSnoc<E, B, C>(e: E, ys: seq<B>, inner: (E, B) -> C, j: nat)
    requires j < |ys|
    ensures GridRow(e, ys[..j + 1], inner) == GridRow(e, ys[..j], inner) + [inner(e, ys[j])]
  {
    assert GridRow(e, ys[..j + 1], inner)[j] == inner(e, ys[j]);
  }

  lemma {:induction false} GridLength<A, B, E, C>(xs: seq<A>, ys: seq<B>, outer: A -> E, inner: (E, B) -> C)
    ensures |Grid(xs, ys, outer, inner)| == |xs| * |ys|
  {
    if xs != [] {
      GridLength(xs[..|xs| - 1], ys, outer, inner);
      Distribute(|xs| - 1, 1, |ys|);
    }
  }

  /** Element i * |ys| + j comes from x = xs[i] and y = ys[j]. */
  lemma {:induction false} GridAt<A, B, E, C>(xs: seq<A>, ys: seq<B>, outer: A -> E, inner: (E, B) -> C, i: nat, j: nat)
    requires i < |xs| && j < |ys|
    ensures i * |ys| + j < |Grid(xs, ys, outer, inner)|
    ensures Grid(xs, ys, outer, inner)[i * |ys| + j] == inner(outer(xs[i]), ys[j])
  {
    var n, m := |xs|, |ys|;
    var init := xs[..n - 1];
    var g0 := Grid(init, ys, outer, inner);
    GridLength(init, ys, outer, inner);
    GridLength(xs, ys, outer, inner);
    Distribute(n - 1, 1, m);
    if i < n - 1 {
      GridAt(init, ys, outer, inner, i, j);
      assert init[i] == xs[i];
    } else {
      assert i * m + j == |g0| + j;
    }
  }

  /** Looping over xs and then over zs emits the two outputs one after the
      other. */
  lemma {:induction false} GridAppend<A, B, E, C>(xs: seq<A>, zs: seq<A>, ys: seq<B>, outer: A -> E, inner: (E, B) -> C)
    ensures Grid(xs + zs, ys, outer, inner) == Grid(xs, ys, outer, inner) + Grid(zs, ys, outer, inner)
  {
    if zs == [] {
      assert xs + zs == xs;
    } else {
      var w := xs + zs;
      assert w[..|w| - 1] == xs + zs[..|zs| - 1];
      assert w[|w| - 1] == zs[|zs| - 1];
      GridAppend(xs, zs[..|zs| - 1], ys, outer, inner);
    }
  }

  /** A loop cut short after i rows has emitted a prefix of the output. */
  lemma GridPrefix<A, B, E, C>(xs: seq<A>, ys: seq<B>, outer: A -> E, inner: (E, B) -> C, i: nat)
    requires i <= |xs|
    ensures Grid(xs[..i], ys, outer, inner) <= Grid(xs, ys, outer, inner)
  {
    GridAppend(xs[..i], xs[i..], ys, outer, inner);
    assert xs[..i] + xs[i..] == xs;
  }
}
