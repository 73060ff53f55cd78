/**
 The SQL the monitoring report is made of: WHERE, column projection and the aggregate functions,
 with `PERCENTILE_CONT` as in section 10.9 of ISO/IEC 9075-2:2003 and `COALESCE(…, 0)` built in.
 */
module Aggregates {

  function Filter<T>(xs: seq<T>, p: T -> bool): (r: seq<T>)
    ensures forall i :: 0 <= i < |r| ==> r[i] in xs && p(r[i])
    ensures forall i :: 0 <= i < |xs| && p(xs[i]) ==> xs[i] in r
  {
    if xs == [] then []
    else Filter(xs[..|xs| - 1], p) + if p(xs[|xs| - 1]) then [xs[|xs| - 1]] else []
  }

  function Map<T, U>(xs: seq<T>, f: T -> U): (r: seq<U>)
    ensures |r| == |xs| && forall i :: 0 <= i < |xs| ==> r[i] == f(xs[i])
  {
    if xs == [] then [] else Map(xs[..|xs| - 1], f) + [f(xs[|xs| - 1])]
  }

  function SumInt(xs: seq<int>): int {
    if xs == [] then 0 else SumInt(xs[..|xs| - 1]) + xs[|xs| - 1]
  }

  function SumReal(xs: seq<real>): real {
    if xs == [] then 0.0 else SumReal(xs[..|xs| - 1]) + xs[|xs| - 1]
  }

  /** COALESCE(AVG(x), 0). */
  function Average(xs: seq<real>): real {
    if xs == [] then 0.0 else SumReal(xs) / (|xs| as real)
  }

  /** COALESCE(MAX(x), 0). */
  function Largest(xs: seq<int>): (m: int)
    ensures xs != [] ==> m in xs && forall x :: x in xs ==> x <= m
  {
    if xs == [] then 0
    else
      var last, rest := xs[|xs| - 1], xs[..|xs| - 1];
      assert rest + [last] == xs;
      if rest == [] || last >= Largest(rest) then last else Largest(rest)
  }

  // ----- ORDER BY -----

  predicate Ordered(xs: seq<int>) {
    |xs| < 2 || (xs[|xs| - 2] <= xs[|xs| - 1] && Ordered(xs[..|xs| - 1]))
  }

  function Insert(xs: seq<int>, x: int): (r: seq<int>)
    ensures |r| == |xs| + 1
  {
    if xs == [] || xs[|xs| - 1] <= x then xs + [x]
    else Insert(xs[..|xs| - 1], x) + [xs[|xs| - 1]]
  }

  function Sort(xs: seq<int>): (r: seq<int>)
    ensures |r| == |xs|
  {
    if xs == [] then [] else Insert(Sort(xs[..|xs| - 1]), xs[|xs| - 1])
  }

  lemma {:induction false} OrderedAt(xs: seq<int>, i: nat, j: nat)
    requires Ordered(xs) && i <= j < |xs|
    ensures xs[i] <= xs[j]
    decreases |xs|, j - i
  {
    if j < |xs| - 1 {
      OrderedAt(xs[..|xs| - 1], i, j);
    } else if i < j {
      OrderedAt(xs[..|xs| - 1], i, j - 1);
    }
  }

  lemma {:induction false} InsertOrders(xs: seq<int>, x: int)
    requires Ordered(xs)
    ensures Ordered(Insert(xs, x)) && multiset(Insert(xs, x)) == multiset(xs) + multiset{x}
  {
    if xs == [] || xs[|xs| - 1] <= x {
      assert (xs + [x])[..|xs|] == xs;
    } else {
      var rest, last := xs[..|xs| - 1], xs[|xs| - 1];
      assert xs == rest + [last];
      InsertOrders(rest, x);
      assert Insert(xs, x)[..|xs|] == Insert(rest, x);
    }
  }

  lemma {:induction false} SortOrders(xs: seq<int>)
    ensures Ordered(Sort(xs)) && multiset(Sort(xs)) == multiset(xs)
  {
    if xs != [] {
      assert xs == xs[..|xs| - 1] + [xs[|xs| - 1]];
      SortOrders(xs[..|xs| - 1]);
      InsertOrders(Sort(xs[..|xs| - 1]), xs[|xs| - 1]);
    }
  }

  lemma LastIsLargest(xs: seq<int>, x: int)
    requires Ordered(xs) && x in xs
    ensures x <= xs[|xs| - 1]
  {
    var i :| 0 <= i < |xs| && xs[i] == x;
    OrderedAt(xs, i, |xs| - 1);
  }

  lemma LastOff<T>(xs: seq<T>)
    requires xs != []
    ensures multiset(xs[..|xs| - 1]) == multiset(xs) - multiset{xs[|xs| - 1]}
    ensures xs == xs[..|xs| - 1] + [xs[|xs| - 1]]
  {
    assert xs == xs[..|xs| - 1] + [xs[|xs| - 1]];
  }

  lemma SameLast(xs: seq<int>, ys: seq<int>)
    requires Ordered(xs) && Ordered(ys) && multiset(xs) == multiset(ys) && xs != [] && ys != []
    ensures xs[|xs| - 1] == ys[|ys| - 1]
  {
    var x, y := xs[|xs| - 1], ys[|ys| - 1];
    assert x in multiset(xs) && y in multiset(ys);
    hide Ordered;
    LastIsLargest(ys, x);
    LastIsLargest(xs, y);
  }

  /** There is one way to order a collection of values. */
  lemma {:induction false} OrderIsUnique(xs: seq<int>, ys: seq<int>)
    requires Ordered(xs) && Ordered(ys) && multiset(xs) == multiset(ys)
    ensures xs == ys
  {
    assert |multiset(xs)| == |xs| && |multiset(ys)| == |ys|;
    if xs != [] {
      SameLast(xs, ys);
      LastOff(xs);
      LastOff(ys);
      assert multiset(xs[..|xs| - 1]) == multiset(ys[..|ys| - 1]);
      OrderIsUnique(xs[..|xs| - 1], ys[..|ys| - 1]);
    }
  }

  // ----- PERCENTILE_CONT -----

  /** Linear interpolation between the two ordered values around row 1 + p * (N - 1); 0 without rows. */
  function Percentile(xs: seq<int>, p: real): real
    requires 0.0 <= p <= 1.0
  {
    if xs == [] then 0.0
    else
      Interpolated(Sort(xs), Floor(|xs|, p), Ceil(|xs|, p), Rank(|xs|, p))
  }

  /** The value at `rank`, between two rows weighted by their nearness to it. */
  function Interpolated(s: seq<int>, floor: nat, ceil: nat, rank: real): real
    requires floor <= ceil < |s|
  {
    if floor == ceil then s[floor] as real
    else (ceil as real - rank) * (s[floor] as real) + (rank - floor as real) * (s[ceil] as real)
  }

  /** The row sought, counted from 0. */
  function Rank(n: nat, p: real): (r: real)
    requires n > 0 && 0.0 <= p <= 1.0
    ensures 0.0 <= r <= (n - 1) as real
  {
    ScaleRises(0.0, p, (n - 1) as real);
    ScaleRises(p, 1.0, (n - 1) as real);
    Scale(p, (n - 1) as real)
  }

  function Scale(p: real, length: real): real { p * length }

  lemma ScaleRises(p: real, q: real, length: real)
    requires p <= q && 0.0 <= length
    ensures Scale(p, length) <= Scale(q, length) && Scale(0.0, length) == 0.0 && Scale(1.0, length) == length
  {
    assert 0.0 <= (q - p) * length;
  }

  function Floor(n: nat, p: real): (f: nat)
    requires n > 0 && 0.0 <= p <= 1.0
    ensures f < n && f as real <= Rank(n, p) < f as real + 1.0
  {
    Rank(n, p).Floor
  }

  function Ceil(n: nat, p: real): (c: nat)
    requires n > 0 && 0.0 <= p <= 1.0
    ensures Floor(n, p) <= c < n && c <= Floor(n, p) + 1 && Rank(n, p) <= c as real
  {
    if Rank(n, p) == Floor(n, p) as real then Floor(n, p) else Floor(n, p) + 1
  }

  function Between(a: real, b: real, t: real): real {
    a + t * (b - a)
  }

  lemma Interpolates(a: real, b: real, t: real)
    requires a <= b && 0.0 <= t <= 1.0
    ensures a <= Between(a, b, t) <= b
  {
    ProductRises(0.0, t, b - a);
    ProductRises(t, 1.0, b - a);
  }

  lemma ProductRises(t: real, u: real, c: real)
    requires t <= u && 0.0 <= c
    ensures t * c <= u * c
  {
    assert 0.0 <= (u - t) * c;
  }

  /** The two weighted neighbours of the standard, as one step from the lower of them. */
  lemma InterpolatedStep(s: seq<int>, floor: nat, ceil: nat, rank: real)
    requires floor <= ceil < |s| && ceil <= floor + 1 && floor as real <= rank <= ceil as real
    ensures Interpolated(s, floor, ceil, rank) == Between(s[floor] as real, s[ceil] as real, rank - floor as real)
  {
    var t := rank - floor as real;
    Weighted(s[floor] as real, s[ceil] as real, t);
    if floor < ceil {
      assert ceil as real - rank == 1.0 - t;
    }
  }

  lemma Weighted(a: real, b: real, t: real)
    ensures (1.0 - t) * a + t * b == Between(a, b, t)
  {
    assert (1.0 - t) * a == a - t * a;
    assert t * (b - a) == t * b - t * a;
  }

  /** The percentile lies between the two ordered rows around its rank. */
  lemma PercentileBetween(xs: seq<int>, p: real)
    requires xs != [] && 0.0 <= p <= 1.0
    ensures var s, n := Sort(xs), |xs|; s[Floor(n, p)] as real <= Percentile(xs, p) <= s[Ceil(n, p)] as real
  {
    SortOrders(xs);
    var s, floor, ceil, rank := Sort(xs), Floor(|xs|, p), Ceil(|xs|, p), Rank(|xs|, p);
    hide Sort, Rank, Floor, Ceil, Interpolated;
    InterpolatedStep(s, floor, ceil, rank);
    OrderedAt(s, floor, ceil);
    Interpolates(s[floor] as real, s[ceil] as real, rank - floor as real);
  }

  lemma PairwiseOrdered(xs: seq<int>)
    requires forall i, j :: 0 <= i < j < |xs| ==> xs[i] <= xs[j]
    ensures Ordered(xs)
  {
  }

  lemma RankOf(n: nat, p: real, k: nat, t: real)
    requires n > 0 && 0.0 <= p <= 1.0 && 0.0 <= t < 1.0 && Scale(p, (n - 1) as real) == k as real + t
    ensures Rank(n, p) == k as real + t && Floor(n, p) == k < n && Ceil(n, p) == if t == 0.0 then k else k + 1
    ensures t > 0.0 ==> k + 1 < n
  {
    hide Scale;
  }

  lemma InterpolatedBetween(s: seq<int>, k: nat, t: real)
    requires k + 1 < |s|
    ensures Interpolated(s, k, k + 1, k as real + t) == (1.0 - t) * (s[k] as real) + t * (s[k + 1] as real)
  {
    assert (k + 1) as real - (k as real + t) == 1.0 - t && (k as real + t) - k as real == t;
  }

  lemma InterpolatedAtRow(s: seq<int>, k: nat)
    requires k < |s|
    ensures Interpolated(s, k, k, k as real) == s[k] as real
  {
  }

  lemma PercentileAtRank(xs: seq<int>, p: real, k: nat, t: real)
    requires xs != [] && 0.0 <= p <= 1.0 && 0.0 <= t < 1.0 && Scale(p, (|xs| - 1) as real) == k as real + t
    ensures k < |xs| && (t > 0.0 ==> k + 1 < |xs|)
    ensures Percentile(xs, p) == Interpolated(Sort(xs), k, if t == 0.0 then k else k + 1, k as real + t)
  {
    hide Scale, Sort, Interpolated;
    RankOf(|xs|, p, k, t);
  }

  /** The definition of the standard: with the values put in order as `ys` and the row sought at `k + t`, the
      percentile is row `k` if `t` is 0, and otherwise rows `k` and `k + 1` weighted by 1 - t and t. */
  lemma PercentileInterpolates(xs: seq<int>, p: real, ys: seq<int>, k: nat, t: real)
    requires xs != [] && 0.0 <= p <= 1.0 && multiset(ys) == multiset(xs)
    requires forall i, j :: 0 <= i < j < |ys| ==> ys[i] <= ys[j]
    requires 0.0 <= t < 1.0 && p * ((|xs| - 1) as real) == k as real + t
    ensures k < |ys| && (t == 0.0 ==> Percentile(xs, p) == ys[k] as real)
    ensures t > 0.0 ==> k + 1 < |ys| && Percentile(xs, p) == (1.0 - t) * (ys[k] as real) + t * (ys[k + 1] as real)
  {
    PairwiseOrdered(ys);
    SortOrders(xs);
    OrderIsUnique(Sort(xs), ys);
    assert Scale(p, (|xs| - 1) as real) == k as real + t;
    PercentileAtRank(xs, p, k, t);
    hide *;
    if t == 0.0 {
      InterpolatedAtRow(ys, k);
    } else {
      InterpolatedBetween(ys, k, t);
    }
  }

  lemma RankRises(n: nat, p: real, q: real)
    requires n > 0 && 0.0 <= p <= q <= 1.0
    ensures Rank(n, p) <= Rank(n, q) && Floor(n, p) <= Floor(n, q)
    ensures Floor(n, p) < Floor(n, q) ==> Ceil(n, p) <= Floor(n, q)
  {
    hide Scale;
    ScaleRises(p, q, (n - 1) as real);
    assert Rank(n, p) <= Rank(n, q);
    hide Rank, Floor, Ceil;
    assert Floor(n, p) as real < (Floor(n, q) + 1) as real;
  }

  /** A larger fraction gives a larger percentile. */
  lemma PercentileRises(xs: seq<int>, p: real, q: real)
    requires 0.0 <= p <= q <= 1.0
    ensures Percentile(xs, p) <= Percentile(xs, q)
  {
    if xs != [] {
      var s, n := Sort(xs), |xs|;
      SortOrders(xs);
      RankRises(n, p, q);
      if Floor(n, p) < Floor(n, q) {
        PercentileBetween(xs, p);
        PercentileBetween(xs, q);
        hide Percentile, Sort, Rank, Floor, Ceil;
        OrderedAt(s, Ceil(n, p), Floor(n, q));
      } else {
        SameSegment(xs, p, q);
      }
    }
  }

  lemma SameSegment(xs: seq<int>, p: real, q: real)
    requires xs != [] && 0.0 <= p <= q <= 1.0 && Floor(|xs|, p) == Floor(|xs|, q)
    ensures Percentile(xs, p) <= Percentile(xs, q)
  {
    var s, n, floor, ceil := Sort(xs), |xs|, Floor(|xs|, p), Ceil(|xs|, p);
    SortOrders(xs);
    if ceil == floor {
      PercentileBetween(xs, p);
      PercentileBetween(xs, q);
    } else {
      SameCeil(n, p, q);
      hide Sort, Rank, Floor, Ceil, Interpolated;
      OrderedAt(s, floor, ceil);
      InterpolatedRises(s, floor, ceil, Rank(n, p), Rank(n, q));
    }
  }

  lemma SameCeil(n: nat, p: real, q: real)
    requires n > 0 && 0.0 <= p <= q <= 1.0 && Floor(n, p) == Floor(n, q) && Floor(n, p) != Ceil(n, p)
    ensures Rank(n, p) <= Rank(n, q) && Ceil(n, q) == Ceil(n, p)
  {
    RankRises(n, p, q);
  }

  lemma InterpolatedRises(s: seq<int>, floor: nat, ceil: nat, rank: real, rank': real)
    requires floor <= ceil < |s| && ceil <= floor + 1 && floor as real <= rank <= rank' <= ceil as real
    requires s[floor] <= s[ceil]
    ensures Interpolated(s, floor, ceil, rank) <= Interpolated(s, floor, ceil, rank')
  {
    hide Interpolated;
    InterpolatedStep(s, floor, ceil, rank);
    InterpolatedStep(s, floor, ceil, rank');
    ProductRises(rank - floor as real, rank' - floor as real, s[ceil] as real - s[floor] as real);
  }

  /** It depends on the values alone, not on the order of the rows. */
  lemma PercentileIgnoresOrder(xs: seq<int>, ys: seq<int>, p: real)
    requires 0.0 <= p <= 1.0 && multiset(xs) == multiset(ys)
    ensures Percentile(xs, p) == Percentile(ys, p)
  {
    SortOrders(xs);
    SortOrders(ys);
    hide Sort, Rank, Floor, Ceil;
    assert |multiset(xs)| == |xs| && |multiset(ys)| == |ys|;
    OrderIsUnique(Sort(xs), Sort(ys));
  }

  /** It lies between any bounds of the values. */
  lemma PercentileWithin(xs: seq<int>, p: real, low: int, high: int)
    requires xs != [] && 0.0 <= p <= 1.0 && forall x :: x in xs ==> low <= x <= high
    ensures low as real <= Percentile(xs, p) <= high as real
  {
    var s, floor, ceil := Sort(xs), Floor(|xs|, p), Ceil(|xs|, p);
    SortOrders(xs);
    PercentileBetween(xs, p);
    hide Sort, Floor, Ceil, Percentile;
    assert s[floor] in multiset(s) && s[ceil] in multiset(s);
    assert s[floor] in xs && s[ceil] in xs;
  }

  /** For non-negative values the percentiles climb from 0 to the largest value; they are 0 without rows. */
  lemma PercentileOrder(xs: seq<int>, p: real, q: real)
    requires 0.0 <= p <= q <= 1.0 && forall x :: x in xs ==> 0 <= x
    ensures 0.0 <= Percentile(xs, p) <= Percentile(xs, q) <= Largest(xs) as real
    ensures xs == [] ==> Percentile(xs, p) == Percentile(xs, q) == 0.0 && Largest(xs) == 0
  {
    PercentileRises(xs, p, q);
    if xs != [] {
      hide Percentile;
      PercentileWithin(xs, p, 0, Largest(xs));
      PercentileWithin(xs, q, 0, Largest(xs));
    }
  }

  function AtMost(bound: real): int -> bool { x => x as real <= bound }

  function AtLeast(bound: real): int -> bool { x => x as real >= bound }

  /** What a percentile is for: counting from 0, the rows up to the rank are at most as large and the
      rows from the rank on are at least as large. */
  lemma PercentileSplitsRows(xs: seq<int>, p: real)
    requires xs != [] && 0.0 <= p <= 1.0
    ensures |Filter(xs, AtMost(Percentile(xs, p)))| >= Floor(|xs|, p) + 1
    ensures |Filter(xs, AtLeast(Percentile(xs, p)))| >= |xs| - Ceil(|xs|, p)
  {
    var s, v, floor, ceil := Sort(xs), Percentile(xs, p), Floor(|xs|, p), Ceil(|xs|, p);
    SortOrders(xs);
    PercentileBetween(xs, p);
    hide Percentile, Sort, Floor, Ceil, Filter;
    FilterIgnoresOrder(s, xs, AtMost(v));
    FilterIgnoresOrder(s, xs, AtLeast(v));
    forall i | 0 <= i < floor + 1 ensures AtMost(v)(s[i]) {
      OrderedAt(s, i, floor);
    }
    forall i | ceil <= i < |s| ensures AtLeast(v)(s[i]) {
      OrderedAt(s, ceil, i);
    }
    PrefixCounts(s, AtMost(v), floor + 1);
    SuffixCounts(s, AtLeast(v), ceil);
  }

  lemma {:induction false} PrefixCounts(xs: seq<int>, p: int -> bool, k: nat)
    requires k <= |xs| && forall i :: 0 <= i < k ==> p(xs[i])
    ensures |Filter(xs, p)| >= k
  {
    if xs != [] {
      PrefixCounts(xs[..|xs| - 1], p, if k == |xs| then k - 1 else k);
    }
  }

  lemma {:induction false} SuffixCounts(xs: seq<int>, p: int -> bool, k: nat)
    requires k <= |xs| && forall i :: k <= i < |xs| ==> p(xs[i])
    ensures |Filter(xs, p)| >= |xs| - k
  {
    if k < |xs| {
      SuffixCounts(xs[..|xs| - 1], p, k);
    }
  }

  // ----- ORDER BY key DESC -----

  predicate Descending<T>(xs: seq<T>, key: T -> int) {
    |xs| < 2 || (key(xs[|xs| - 2]) >= key(xs[|xs| - 1]) && Descending(xs[..|xs| - 1], key))
  }

  lemma {:induction false} DescendingAt<T>(xs: seq<T>, key: T -> int, i: nat, j: nat)
    requires Descending(xs, key) && i <= j < |xs|
    ensures key(xs[i]) >= key(xs[j])
    decreases |xs|, j - i
  {
    if j < |xs| - 1 {
      DescendingAt(xs[..|xs| - 1], key, i, j);
    } else if i < j {
      DescendingAt(xs[..|xs| - 1], key, i, j - 1);
    }
  }

  function Place<T>(xs: seq<T>, x: T, key: T -> int): seq<T> {
    if xs == [] || key(xs[|xs| - 1]) >= key(x) then xs + [x]
    else Place(xs[..|xs| - 1], x, key) + [xs[|xs| - 1]]
  }

  function SortDescending<T>(xs: seq<T>, key: T -> int): seq<T> {
    if xs == [] then [] else Place(SortDescending(xs[..|xs| - 1], key), xs[|xs| - 1], key)
  }

  lemma AppendDescends<T>(xs: seq<T>, x: T, key: T -> int)
    requires Descending(xs, key) && (xs != [] ==> key(xs[|xs| - 1]) >= key(x))
    ensures multiset(xs + [x]) == multiset(xs) + multiset{x} && Descending(xs + [x], key)
  {
    assert (xs + [x])[..|xs|] == xs;
  }

  lemma {:induction false} PlaceDescends<T>(xs: seq<T>, x: T, key: T -> int)
    requires Descending(xs, key)
    ensures multiset(Place(xs, x, key)) == multiset(xs) + multiset{x} && Descending(Place(xs, x, key), key)
  {
    if xs == [] || key(xs[|xs| - 1]) >= key(x) {
      AppendDescends(xs, x, key);
    } else {
      var rest, last := xs[..|xs| - 1], xs[|xs| - 1];
      PlaceDescends(rest, x, key);
      PlacedEndsLow(rest, x, key, key(last));
      LastOff(xs);
      assert Place(xs, x, key) == Place(rest, x, key) + [last];
      hide Place, Descending;
      AppendDescends(Place(rest, x, key), last, key);
    }
  }

  /** What is placed, or what it is placed behind, ends the longer list. */
  lemma PlacedEndsLow<T>(xs: seq<T>, x: T, key: T -> int, low: int)
    requires low < key(x) && (xs != [] ==> low <= key(xs[|xs| - 1]))
    ensures Place(xs, x, key) != [] && low <= key(Place(xs, x, key)[|Place(xs, x, key)| - 1])
  {
  }

  /** Some order satisfies ORDER BY, whatever the rows. */
  lemma {:induction false} SortDescends<T>(xs: seq<T>, key: T -> int)
    ensures multiset(SortDescending(xs, key)) == multiset(xs) && Descending(SortDescending(xs, key), key)
  {
    if xs != [] {
      assert xs == xs[..|xs| - 1] + [xs[|xs| - 1]];
      SortDescends(xs[..|xs| - 1], key);
      PlaceDescends(SortDescending(xs[..|xs| - 1], key), xs[|xs| - 1], key);
    }
  }

  lemma {:induction false} CountedAtMostOnce<T>(xs: seq<T>, v: T)
    requires forall i, j :: 0 <= i < j < |xs| ==> xs[i] != xs[j]
    ensures multiset(xs)[v] <= 1
  {
    if xs != [] {
      var rest, last := xs[..|xs| - 1], xs[|xs| - 1];
      assert xs == rest + [last];
      CountedAtMostOnce(rest, v);
      assert last !in multiset(rest);
    }
  }

  /** Reordering rows that are all different leaves them all different. */
  lemma DifferentInAnyOrder<T>(xs: seq<T>, ys: seq<T>, i: nat, j: nat)
    requires multiset(xs) == multiset(ys) && forall i, j :: 0 <= i < j < |xs| ==> xs[i] != xs[j]
    requires i < j < |ys|
    ensures ys[i] != ys[j]
  {
    CountedAtMostOnce(xs, ys[i]);
    assert ys == ys[..j] + ys[j..];
    assert multiset(ys)[ys[i]] == multiset(ys[..j])[ys[i]] + multiset(ys[j..])[ys[i]];
    assert ys[..j][i] in multiset(ys[..j]) && ys[j..][0] in multiset(ys[j..]);
  }

  lemma FirstIsMember<T>(xs: seq<T>)
    ensures xs == [] || xs[0] in xs
  {
  }

  lemma SameMembers<T>(xs: seq<T>, ys: seq<T>, x: T)
    requires multiset(xs) == multiset(ys)
    ensures x in xs <==> x in ys
  {
    assert x in xs <==> x in multiset(xs);
    assert x in ys <==> x in multiset(ys);
  }

  // ----- GROUP BY -----

  function HasKey<T>(key: T -> string, k: string): T -> bool {
    x => key(x) == k
  }

  /** The sizes of the groups with these keys, added up. */
  function GroupSizes<T>(xs: seq<T>, key: T -> string, keys: seq<string>): nat {
    if keys == [] then 0
    else GroupSizes(xs, key, keys[..|keys| - 1]) + |Filter(xs, HasKey(key, keys[|keys| - 1]))|
  }

  ghost predicate Distinct(keys: seq<string>) {
    forall i, j :: 0 <= i < j < |keys| ==> keys[i] != keys[j]
  }

  lemma {:induction false} CountedOnce<T>(xs: seq<T>, x: T, key: T -> string, keys: seq<string>)
    requires Distinct(keys)
    ensures GroupSizes(xs + [x], key, keys) == GroupSizes(xs, key, keys) + if key(x) in keys then 1 else 0
  {
    if keys != [] {
      var rest, k := keys[..|keys| - 1], keys[|keys| - 1];
      assert keys == rest + [k];
      CountedOnce(xs, x, key, rest);
      FilterLast(xs, x, HasKey(key, k));
    }
  }

  lemma {:induction false} NoRowsNoGroups<T>(key: T -> string, keys: seq<string>)
    ensures GroupSizes([], key, keys) == 0
  {
    if keys != [] {
      NoRowsNoGroups(key, keys[..|keys| - 1]);
    }
  }

  /** Groups of distinct keys that cover all rows add up to the number of rows. */
  lemma {:induction false} GroupsCover<T>(xs: seq<T>, key: T -> string, keys: seq<string>)
    requires Distinct(keys) && forall i :: 0 <= i < |xs| ==> key(xs[i]) in keys
    ensures GroupSizes(xs, key, keys) == |xs|
  {
    if xs == [] {
      NoRowsNoGroups(key, keys);
    } else {
      var rest, x := xs[..|xs| - 1], xs[|xs| - 1];
      assert xs == rest + [x];
      GroupsCover(rest, key, keys);
      CountedOnce(rest, x, key, keys);
    }
  }

  // ----- rows in another order -----

  lemma {:induction false} FilterMultiset<T>(xs: seq<T>, p: T -> bool, x: T)
    ensures multiset(Filter(xs, p))[x] == if p(x) then multiset(xs)[x] else 0
  {
    if xs != [] {
      var rest, last := xs[..|xs| - 1], xs[|xs| - 1];
      assert xs == rest + [last];
      FilterMultiset(rest, p, x);
    }
  }

  lemma FilterIgnoresOrder<T(!new)>(xs: seq<T>, ys: seq<T>, p: T -> bool)
    requires multiset(xs) == multiset(ys)
    ensures multiset(Filter(xs, p)) == multiset(Filter(ys, p)) && |Filter(xs, p)| == |Filter(ys, p)|
  {
    forall x: T ensures multiset(Filter(xs, p))[x] == multiset(Filter(ys, p))[x] {
      FilterMultiset(xs, p, x);
      FilterMultiset(ys, p, x);
    }
    assert |multiset(Filter(xs, p))| == |Filter(xs, p)| && |multiset(Filter(ys, p))| == |Filter(ys, p)|;
  }

  lemma FilterLast<T>(xs: seq<T>, x: T, p: T -> bool)
    ensures Filter(xs + [x], p) == if p(x) then Filter(xs, p) + [x] else Filter(xs, p)
  {
    assert (xs + [x])[..|xs + [x]| - 1] == xs;
  }

  lemma {:induction false} FilterAll<T>(xs: seq<T>, p: T -> bool)
    requires forall i :: 0 <= i < |xs| ==> p(xs[i])
    ensures Filter(xs, p) == xs
  {
    if xs != [] {
      FilterAll(xs[..|xs| - 1], p);
    }
  }

  lemma {:induction false} FilterSplits<T>(xs: seq<T>, ys: seq<T>, p: T -> bool)
    ensures Filter(xs + ys, p) == Filter(xs, p) + Filter(ys, p)
  {
    if ys == [] {
      assert xs + ys == xs;
    } else {
      assert (xs + ys)[..|xs + ys| - 1] == xs + ys[..|ys| - 1];
      FilterSplits(xs, ys[..|ys| - 1], p);
    }
  }

  lemma {:induction false} MapSplits<T, U>(xs: seq<T>, ys: seq<T>, f: T -> U)
    ensures Map(xs + ys, f) == Map(xs, f) + Map(ys, f)
  {
  }

  lemma {:induction false} SumRealSplits(xs: seq<real>, ys: seq<real>)
    ensures SumReal(xs + ys) == SumReal(xs) + SumReal(ys)
  {
    if ys == [] {
      assert xs + ys == xs;
    } else {
      assert (xs + ys)[..|xs + ys| - 1] == xs + ys[..|ys| - 1];
      SumRealSplits(xs, ys[..|ys| - 1]);
    }
  }

  /** The column of a table whose rows come in another order has the same sum. */
  lemma {:induction false} ColumnIgnoresOrder<T>(xs: seq<T>, ys: seq<T>, f: T -> real)
    requires multiset(xs) == multiset(ys)
    ensures |xs| == |ys| && SumReal(Map(xs, f)) == SumReal(Map(ys, f))
  {
    assert |multiset(xs)| == |xs| && |multiset(ys)| == |ys|;
    if xs != [] {
      var rest, last := xs[..|xs| - 1], xs[|xs| - 1];
      assert xs == rest + [last];
      assert last in multiset(ys);
      var i :| 0 <= i < |ys| && ys[i] == last;
      ColumnIgnoresOrder(rest, Without(ys, i), f);
      ColumnWithout(ys, i, f);
    }
  }

  function Without<T>(xs: seq<T>, i: nat): (r: seq<T>)
    requires i < |xs|
    ensures multiset(r) == multiset(xs) - multiset{xs[i]}
  {
    assert xs == xs[..i] + [xs[i]] + xs[i + 1..];
    xs[..i] + xs[i + 1..]
  }

  lemma ColumnLast<T>(xs: seq<T>, f: T -> real)
    requires xs != []
    ensures SumReal(Map(xs, f)) == SumReal(Map(xs[..|xs| - 1], f)) + f(xs[|xs| - 1])
  {
    assert Map(xs, f)[..|xs| - 1] == Map(xs[..|xs| - 1], f);
  }

  lemma {:induction false} ColumnWithout<T>(xs: seq<T>, i: nat, f: T -> real)
    requires i < |xs|
    ensures SumReal(Map(xs, f)) == SumReal(Map(Without(xs, i), f)) + f(xs[i])
  {
    hide Map, SumReal;
    var rest := xs[..|xs| - 1];
    ColumnLast(xs, f);
    if i < |xs| - 1 {
      var shorter := Without(xs, i);
      assert shorter[..|shorter| - 1] == Without(rest, i);
      ColumnLast(shorter, f);
      ColumnWithout(rest, i, f);
    } else {
      assert Without(xs, i) == rest;
    }
  }

  lemma SumColumn<T>(xs: seq<T>, ys: seq<T>, f: T -> real)
    ensures SumReal(Map(xs + ys, f)) == SumReal(Map(xs, f)) + SumReal(Map(ys, f))
  {
    MapSplits(xs, ys, f);
    SumRealSplits(Map(xs, f), Map(ys, f));
  }

  /** An average counted once for each row it stands for. */
  function Weighed(average: real, rows: nat): real { average * (rows as real) }

  lemma AverageTimesCount(xs: seq<real>)
    ensures Weighed(Average(xs), |xs|) == SumReal(xs)
  {
  }

  lemma AverageIgnoresOrder<T>(xs: seq<T>, ys: seq<T>, f: T -> real)
    requires multiset(xs) == multiset(ys)
    ensures Average(Map(xs, f)) == Average(Map(ys, f))
  {
    ColumnIgnoresOrder(xs, ys, f);
  }

  /** An average of values in [0, 1] is one. */
  lemma {:induction false} SumWithin(xs: seq<real>)
    requires forall i :: 0 <= i < |xs| ==> 0.0 <= xs[i] <= 1.0
    ensures 0.0 <= SumReal(xs) <= |xs| as real
  {
    if xs != [] {
      SumWithin(xs[..|xs| - 1]);
    }
  }

  lemma AverageWithin(xs: seq<real>)
    requires forall i :: 0 <= i < |xs| ==> 0.0 <= xs[i] <= 1.0
    ensures 0.0 <= Average(xs) <= 1.0
  {
    SumWithin(xs);
    if xs != [] {
      DivideWithin(SumReal(xs), |xs| as real);
    }
  }

  lemma DivideWithin(a: real, n: real)
    requires n > 0.0 && 0.0 <= a <= n
    ensures 0.0 <= a / n <= 1.0
  {
  }
}
