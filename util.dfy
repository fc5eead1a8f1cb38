/** Generic helpers shared by the whole store model: an Option type, deterministic
    iteration over a set of row ids, ordered listings, and sums/means over scores. */
module Util {

  datatype Option<+T> = None | Some(value: T)

  /** No element occurs twice. */
  predicate Distinct<T(==)>(xs: seq<T>) {
    forall i, j :: 0 <= i < j < |xs| ==> xs[i] != xs[j]
  }

  /** `xs` lists exactly the elements of `s`, each once. */
  ghost predicate IsListing<T(!new)>(xs: seq<T>, s: set<T>) {
    Distinct(xs) && forall x :: x in xs <==> x in s
  }

  /** `le`, read through `key`, never decreases along `xs`. */
  predicate SortedBy<T, K>(xs: seq<T>, key: T -> K, le: (K, K) -> bool) {
    forall i, j :: 0 <= i < j < |xs| ==> le(key(xs[i]), key(xs[j]))
  }

  ghost predicate TotalPreorder<K(!new)>(le: (K, K) -> bool) {
    && (forall x, y :: le(x, y) || le(y, x))
    && (forall x, y, z :: le(x, y) && le(y, z) ==> le(x, z))
  }

  ghost predicate Antisymmetric<K(!new)>(le: (K, K) -> bool) {
    forall x, y :: le(x, y) && le(y, x) ==> x == y
  }

  /** Lexicographic order on pairs: ORDER BY a, b. */
  predicate LexLe<A(==), B>(leA: (A, A) -> bool, leB: (B, B) -> bool, x: (A, B), y: (A, B)) {
    if x.0 == y.0 then leB(x.1, y.1) else leA(x.0, y.0)
  }

  lemma LexIsTotalPreorder<A(!new), B(!new)>(leA: (A, A) -> bool, leB: (B, B) -> bool)
    requires TotalPreorder(leA) && Antisymmetric(leA) && TotalPreorder(leB)
    ensures TotalPreorder((x: (A, B), y: (A, B)) => LexLe(leA, leB, x, y))
  {
  }

  predicate IntLe(a: int, b: int) { a <= b }

  lemma IntLeIsTotalPreorder()
    ensures TotalPreorder(IntLe)
  {
  }

  // ---------------------------------------------------------------------------
  // Deterministic iteration over row ids

  predicate IsLeast(k: nat, s: set<nat>) {
    k in s && forall j :: j in s ==> k <= j
  }

  lemma {:induction false} MinExists(s: set<nat>)
    requires s != {}
    ensures exists k :: IsLeast(k, s)
  {
    var x :| x in s;
    var rest := s - {x};
    if rest == {} {
      forall j | j in s ensures x <= j {
        assert j !in rest;
      }
      assert IsLeast(x, s);
    } else {
      MinExists(rest);
      var k :| IsLeast(k, rest);
      var m := if x < k then x else k;
      forall j | j in s ensures m <= j {
        if j != x { assert j in rest; }
      }
      assert IsLeast(m, s);
    }
  }

  /** The smallest id of `s`. A lookup through a unique index asks for the one
      row that matches; under the index there is at most one, and this picks it. */
  function Least(s: set<nat>): (r: Option<nat>)
    ensures r.None? <==> s == {}
    ensures r.Some? ==> r.value in s && forall x :: x in s ==> r.value <= x
  {
    if s == {} then None
    else
      MinExists(s);
      var k :| IsLeast(k, s);
      Some(k)
  }

  /** The ids of `s` in increasing order: how a table is scanned. */
  function SortedKeys(s: set<nat>): (r: seq<nat>)
    ensures forall i, j :: 0 <= i < j < |r| ==> r[i] < r[j]
    ensures forall x :: x in s <==> x in r
    ensures |r| == |s|
    decreases s
  {
    if s == {} then []
    else
      MinExists(s);
      var k :| IsLeast(k, s);
      var rest := SortedKeys(s - {k});
      assert forall x :: x in rest ==> k < x;
      [k] + rest
  }

  lemma SortedKeysIsListing(s: set<nat>)
    ensures IsListing(SortedKeys(s), s)
  {
  }

  /** A listing of `s` has as many elements as `s`. */
  lemma {:induction false} ListingLength<T(!new)>(xs: seq<T>, s: set<T>)
    requires IsListing(xs, s)
    ensures |xs| == |s|
  {
    if xs != [] {
      var init := xs[..|xs| - 1];
      var last := xs[|xs| - 1];
      forall x ensures x in init <==> x in s - {last} {
        if x in init {
          var i :| 0 <= i < |init| && init[i] == x;
          assert xs[i] == x;
        }
        if x in s - {last} {
          assert x in xs;
          var i :| 0 <= i < |xs| && xs[i] == x;
          assert i < |xs| - 1 && init[i] == x;
        }
      }
      ListingLength(init, s - {last});
    } else {
      assert forall x :: x !in s;
    }
  }

  // ---------------------------------------------------------------------------
  // Counting (len([x for x in xs if p(x)]))

  function CountIf<T>(xs: seq<T>, p: T -> bool): nat {
    if xs == [] then 0 else CountIf(xs[..|xs| - 1], p) + (if p(xs[|xs| - 1]) then 1 else 0)
  }

  lemma {:induction false} CountIfAtMost<T>(xs: seq<T>, p: T -> bool)
    ensures CountIf(xs, p) <= |xs|
  {
    if xs != [] {
      CountIfAtMost(xs[..|xs| - 1], p);
    }
  }

  lemma FiltroConUltimo(init: seq<nat>, last: nat, p: nat -> bool)
    ensures (set x | x in init + [last] && p(x)) == (set x | x in init && p(x)) + (if p(last) then {last} else {})
  {
  }

  /** Over a sequence without repetitions, counting the elements that satisfy
      `p` gives the size of the set of those elements. */
  lemma {:induction false} CountIfSet(xs: seq<nat>, p: nat -> bool)
    requires Distinct(xs)
    ensures CountIf(xs, p) == |set x | x in xs && p(x)|
  {
    if xs != [] {
      var init := xs[..|xs| - 1];
      var last := xs[|xs| - 1];
      assert xs == init + [last];
      assert forall i :: 0 <= i < |init| ==> init[i] == xs[i];
      assert Distinct(init);
      CountIfSet(init, p);
      assert forall i :: 0 <= i < |init| ==> xs[i] != xs[|xs| - 1];
      FiltroConUltimo(init, last, p);
    }
  }

  /** `len([x for x in xs if x >= t])` */
  function CountAtLeast(xs: seq<real>, t: real): (n: nat)
    ensures n <= |xs|
  {
    if xs == [] then 0 else CountAtLeast(xs[..|xs| - 1], t) + (if xs[|xs| - 1] >= t then 1 else 0)
  }

  // ---------------------------------------------------------------------------
  // Ordered listings (ORDER BY): a permutation of the rows, sorted by a key

  predicate IsLeastBy<T, K>(m: T, s: set<T>, key: T -> K, le: (K, K) -> bool) {
    m in s && forall y :: y in s ==> le(key(m), key(y))
  }

  lemma {:induction false} MinByExists<T, K(!new)>(s: set<T>, key: T -> K, le: (K, K) -> bool)
    requires s != {}
    requires TotalPreorder(le)
    ensures exists m :: IsLeastBy(m, s, key, le)
  {
    var x :| x in s;
    var rest := s - {x};
    assert le(key(x), key(x)) || le(key(x), key(x));
    if rest == {} {
      forall y | y in s ensures le(key(x), key(y)) {
        assert y !in rest;
      }
      assert IsLeastBy(x, s, key, le);
    } else {
      MinByExists(rest, key, le);
      var k :| IsLeastBy(k, rest, key, le);
      if le(key(x), key(k)) {
        forall y | y in s ensures le(key(x), key(y)) {
          if y != x {
            assert y in rest;
            assert le(key(k), key(y));
          }
        }
        assert IsLeastBy(x, s, key, le);
      } else {
        assert le(key(k), key(x));
        forall y | y in s ensures le(key(k), key(y)) {
          if y != x { assert y in rest; }
        }
        assert IsLeastBy(k, s, key, le);
      }
    }
  }

  /** Selection sort of a set by a key. Rows with equal keys come out in an
      unspecified order, as they do from ORDER BY. */
  method SortBy<T(==, !new), K(!new)>(s: set<T>, key: T -> K, le: (K, K) -> bool) returns (r: seq<T>)
    requires TotalPreorder(le)
    ensures IsListing(r, s)
    ensures SortedBy(r, key, le)
  {
    r := [];
    var rest := s;
    while rest != {}
      invariant forall x :: x in s <==> x in r || x in rest
      invariant forall x :: x in r ==> x !in rest
      invariant Distinct(r)
      invariant SortedBy(r, key, le)
      invariant forall i, y :: 0 <= i < |r| && y in rest ==> le(key(r[i]), key(y))
      decreases rest
    {
      MinByExists(rest, key, le);
      var m :| IsLeastBy(m, rest, key, le);
      r := r + [m];
      rest := rest - {m};
    }
  }

  // ---------------------------------------------------------------------------
  // Sums, means, extremes of scores

  function Sum(xs: seq<real>): real {
    if xs == [] then 0.0 else Sum(xs[..|xs| - 1]) + xs[|xs| - 1]
  }

  /** Arithmetic mean, and 0.0 for no values (the source's fallback). */
  function Mean(xs: seq<real>): (r: real)
    ensures |xs| == 0 ==> r == 0.0
    ensures |xs| > 0 ==> r * (|xs| as real) == Sum(xs)
  {
    if |xs| == 0 then 0.0 else Sum(xs) / (|xs| as real)
  }

  function MaxOf(xs: seq<real>): (r: real)
    requires |xs| > 0
    ensures r in xs
    ensures forall i :: 0 <= i < |xs| ==> xs[i] <= r
  {
    if |xs| == 1 then xs[0]
    else
      var m := MaxOf(xs[..|xs| - 1]);
      assert forall i :: 0 <= i < |xs| - 1 ==> xs[i] == xs[..|xs| - 1][i];
      if xs[|xs| - 1] > m then xs[|xs| - 1] else m
  }

  function MinOf(xs: seq<real>): (r: real)
    requires |xs| > 0
    ensures r in xs
    ensures forall i :: 0 <= i < |xs| ==> r <= xs[i]
  {
    if |xs| == 1 then xs[0]
    else
      var m := MinOf(xs[..|xs| - 1]);
      assert forall i :: 0 <= i < |xs| - 1 ==> xs[i] == xs[..|xs| - 1][i];
      if xs[|xs| - 1] < m then xs[|xs| - 1] else m
  }

  lemma {:induction false} SumBounds(xs: seq<real>, lo: real, hi: real)
    requires forall i :: 0 <= i < |xs| ==> lo <= xs[i] <= hi
    ensures lo * (|xs| as real) <= Sum(xs) <= hi * (|xs| as real)
  {
    if xs != [] {
      var init := xs[..|xs| - 1];
      assert forall i :: 0 <= i < |init| ==> init[i] == xs[i];
      SumBounds(init, lo, hi);
      assert (|xs| as real) == (|init| as real) + 1.0;
    }
  }

  /** A part of a positive whole is a fraction in [0, 1]. */
  lemma CocienteEnUnidad(v: real, m: real)
    requires m > 0.0 && 0.0 <= v <= m
    ensures 0.0 <= v / m <= 1.0
  {
    var q := v / m;
    assert q * m == v;
    assert 0.0 * m <= q * m <= 1.0 * m;
    ScaleBack(0.0, q, m);
    ScaleBack(q, 1.0, m);
  }

  lemma ScaleBack(a: real, b: real, n: real)
    requires n > 0.0 && a * n <= b * n
    ensures a <= b
  {
  }

  /** A mean of values in [lo, hi] lies in [lo, hi]. */
  lemma MeanWithin(xs: seq<real>, lo: real, hi: real)
    requires |xs| > 0
    requires forall i :: 0 <= i < |xs| ==> lo <= xs[i] <= hi
    ensures lo <= Mean(xs) <= hi
  {
    var n := |xs| as real;
    SumBounds(xs, lo, hi);
    ScaleBack(lo, Mean(xs), n);
    ScaleBack(Mean(xs), hi, n);
  }

  /** A mean lies between the smallest and the largest value. */
  lemma MeanBetweenMinAndMax(xs: seq<real>)
    requires |xs| > 0
    ensures MinOf(xs) <= Mean(xs) <= MaxOf(xs)
  {
    MeanWithin(xs, MinOf(xs), MaxOf(xs));
  }

  // ---------------------------------------------------------------------------
  // Python's floor division

  /** `a // b`: the quotient rounded down. Dafny's `/` keeps the remainder
      non-negative, which is the same for a positive divisor only. */
  function FloorDiv(a: int, b: int): (q: int)
    requires b != 0
    ensures b > 0 ==> b * q <= a < b * q + b
    ensures b < 0 ==> b * q + b < a <= b * q
  {
    if b > 0 then a / b else (-a) / (-b)
  }

  /** A positive divisor: the bracket determines the quotient. */
  lemma FloorDivBy(a: int, b: int, q: int)
    requires b > 0 && b * q <= a < b * q + b
    ensures FloorDiv(a, b) == q
  {
    var r := FloorDiv(a, b);
    if r < q {
      MulMonotone(b, r + 1, q);
    } else if r > q {
      MulMonotone(b, q + 1, r);
    }
  }

  lemma MulMonotone(b: int, x: int, y: int)
    requires b > 0 && x <= y
    ensures b * x <= b * y
  {
  }

  /** With a positive divisor the quotient never decreases. */
  lemma FloorDivMonotone(i: int, j: int, b: int)
    requires b > 0 && i <= j
    ensures FloorDiv(i, b) <= FloorDiv(j, b)
  {
    if FloorDiv(i, b) > FloorDiv(j, b) {
      MulMonotone(b, FloorDiv(j, b) + 1, FloorDiv(i, b));
    }
  }

  /** Adding the divisor adds one to the quotient. */
  lemma FloorDivStep(a: int, b: int)
    requires b > 0
    ensures FloorDiv(a + b, b) == FloorDiv(a, b) + 1
  {
    var q := FloorDiv(a, b);
    assert b * (q + 1) == b * q + b;
    FloorDivBy(a + b, b, q + 1);
  }
}
